/** Preference records: the flat `name|||value` strings the daemon writes
    under `internal/<scan id>/scanprefs` for the scanner to read. */
module Prefs {
  import opened Wrappers
  import opened Py

  const Separator: string := "|||"

  /** The name of a plugin preference, `plugin[type]:field`. */
  function PrefName(plugin: string, ptype: string, field: string): string {
    plugin + "[" + ptype + "]:" + field
  }

  /** One preference record, `name|||value`. */
  function Record(name: string, value: string): string {
    name + Separator + value
  }

  /** The reading of a record on the scanner side: the name is everything
      before the first separator, the value everything after it; a string
      without a separator is no record at all. */
  function ParseRecord(r: string): (p: Option<(string, string)>)
    ensures p.None? <==> !Contains(r, Separator)
  {
    match Find(r, Separator)
    case None => None
    case Some(i) => Some((r[..i], r[i + |Separator|..]))
  }

  lemma NoBarNoOccurrence(s: string, j: int)
    requires 0 <= j < |s| && s[j] != '|'
    ensures !OccursAt(s, Separator, j)
  {
    if j + 3 <= |s| {
      assert s[j..j + 3][0] == s[j];
    }
  }

  /** A record whose name holds no `|` reads back as exactly the name and
      value it was built from, whatever the value holds. */
  lemma RecordRoundTrip(name: string, value: string)
    requires '|' !in name
    ensures ParseRecord(Record(name, value)) == Some((name, value))
  {
    var r := Record(name, value);
    assert OccursAt(r, Separator, |name|) by {
      assert r[|name|..|name| + 3] == Separator;
    }
    forall j | 0 <= j < |name|
      ensures !OccursAt(r, Separator, j)
    {
      assert r[j] == name[j];
      NoBarNoOccurrence(r, j);
    }
    assert Find(r, Separator) == Some(|name|);
    assert r[..|name|] == name;
    assert r[|name| + 3..] == value;
  }

  /** A string without any `|` is not a record. */
  lemma NoBarNoRecord(s: string)
    requires '|' !in s
    ensures ParseRecord(s) == None
  {
    forall j | 0 <= j <= |s|
      ensures !OccursAt(s, Separator, j)
    {
      if j < |s| {
        NoBarNoOccurrence(s, j);
      }
    }
  }
}
