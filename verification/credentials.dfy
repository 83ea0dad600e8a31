/** `build_credentials_as_prefs`: the pure expansion of the per-service
    credential dict of a scan into preference records. Each supported
    service (`ssh`, `smb`, `esxi`, `snmp`) yields a fixed list of records;
    any other service key yields nothing. */
module Credentials {
  import opened Wrappers
  import opened Py
  import opened Dicts
  import opened Prefs

  /** The parameters of one credential (`type`, `username`, `password`, ...). */
  type CredParams = Dict<string, string>

  /** `cred_params.get(key, '')`. */
  function Param(p: CredParams, key: string): string {
    Get(p, key).GetOr("")
  }

  // Record names, as the scanner's credential plugins expect them: the
  // plugin, the kind of its preference and the preference label.
  const SshPlugin: string := "SSH Authorization"
  const SmbPlugin: string := "SMB Authorization"
  const EsxiPlugin: string := "ESXi Authorization"
  const SnmpPlugin: string := "SNMP Authorization"

  const SshPort: string := "auth_port_ssh"
  const SshLogin: string := PrefName(SshPlugin, "entry", "SSH login name:")
  const SshPassword: string := PrefName(SshPlugin, "password", "SSH password (unsafe!):")
  const SshPassphrase: string := PrefName(SshPlugin, "password", "SSH key passphrase:")
  const SshPrivateKey: string := PrefName(SshPlugin, "file", "SSH private key:")
  const SmbLogin: string := PrefName(SmbPlugin, "entry", "SMB login:")
  const SmbPassword: string := PrefName(SmbPlugin, "password", "SMB password :")
  const EsxiLogin: string := PrefName(EsxiPlugin, "entry", "ESXi login name:")
  const EsxiPassword: string := PrefName(EsxiPlugin, "password", "ESXi login password:")

  // SNMP records are written as name and value run together, with no
  // separator between them.
  const SnmpCommunity: string := PrefName(SnmpPlugin, "password", "SNMP Community:")
  const SnmpUsername: string := PrefName(SnmpPlugin, "entry", "SNMPv3 Username:")
  const SnmpPassword: string := PrefName(SnmpPlugin, "password", "SNMPv3 Password:")
  const SnmpAuthAlgorithm: string := PrefName(SnmpPlugin, "radio", "SNMPv3 Authentication Algorithm:")
  const SnmpPrivacyPassword: string := PrefName(SnmpPlugin, "password", "SNMPv3 Privacy Password:")
  const SnmpPrivacyAlgorithm: string := PrefName(SnmpPlugin, "radio", "SNMPv3 Privacy Algorithm:")

  predicate IsKnownService(service: string) {
    service == "ssh" || service == "smb" || service == "esxi" || service == "snmp"
  }

  /** How many records a service yields: ssh 3 with a username/password
      credential (type `up`) and 4 otherwise, smb 2, esxi 2, snmp 6, any
      other service none. */
  function RecordCount(service: string, credType: string): nat {
    if service == "ssh" then (if credType == "up" then 3 else 4)
    else if service == "smb" || service == "esxi" then 2
    else if service == "snmp" then 6
    else 0
  }

  /** The records of one credential entry. */
  function ServicePrefs(service: string, p: CredParams): seq<string> {
    var credType := Param(p, "type");
    var username := Param(p, "username");
    var password := Param(p, "password");
    if service == "ssh" then
      [Record(SshPort, Param(p, "port")), Record(SshLogin, username)]
      + (if credType == "up" then [Record(SshPassword, password)]
         else [Record(SshPassphrase, password), Record(SshPrivateKey, Param(p, "private"))])
    else if service == "smb" then
      [Record(SmbLogin, username), Record(SmbPassword, password)]
    else if service == "esxi" then
      [Record(EsxiLogin, username), Record(EsxiPassword, password)]
    else if service == "snmp" then
      [ SnmpCommunity + Param(p, "community"),
        SnmpUsername + username,
        SnmpPassword + password,
        SnmpAuthAlgorithm + Param(p, "auth_algorithm"),
        SnmpPrivacyPassword + Param(p, "privacy_password"),
        SnmpPrivacyAlgorithm + Param(p, "privacy_algorithm") ]
    else []
  }

  /** Total number of records the entries of a credential dict yield. */
  function TotalCount(creds: Dict<string, CredParams>): nat {
    if |creds| == 0 then 0
    else RecordCount(creds[0].0, Param(creds[0].1, "type")) + TotalCount(creds[1..])
  }

  /** `build_credentials_as_prefs`: the records of every entry, in the dict's
      iteration order. */
  function BuildCredentialsAsPrefs(creds: Dict<string, CredParams>): seq<string> {
    if |creds| == 0 then []
    else ServicePrefs(creds[0].0, creds[0].1) + BuildCredentialsAsPrefs(creds[1..])
  }

  /** Each entry yields as many records as `RecordCount` says. */
  lemma ServicePrefsCount(service: string, p: CredParams)
    ensures |ServicePrefs(service, p)| == RecordCount(service, Param(p, "type"))
  {
  }

  /** The whole output has one record per record of each entry. */
  lemma {:induction false} BuildCount(creds: Dict<string, CredParams>)
    ensures |BuildCredentialsAsPrefs(creds)| == TotalCount(creds)
    decreases |creds|
  {
    if |creds| > 0 {
      ServicePrefsCount(creds[0].0, creds[0].1);
      BuildCount(creds[1..]);
    }
  }

  /** The output follows the dict's order: the records of a dict split in two
      are the records of the first half followed by those of the second. */
  lemma {:induction false} BuildAppend(a: Dict<string, CredParams>, b: Dict<string, CredParams>)
    ensures BuildCredentialsAsPrefs(a + b) == BuildCredentialsAsPrefs(a) + BuildCredentialsAsPrefs(b)
    decreases |a|
  {
    if |a| == 0 {
      assert a + b == b;
    } else {
      assert (a + b)[0] == a[0];
      assert (a + b)[1..] == a[1..] + b;
      BuildAppend(a[1..], b);
    }
  }

  /** The entries of the dict with a supported service key, in order. */
  function KnownOnly(creds: Dict<string, CredParams>): (r: Dict<string, CredParams>)
    ensures forall i :: 0 <= i < |r| ==> IsKnownService(r[i].0)
  {
    if |creds| == 0 then []
    else if IsKnownService(creds[0].0) then [creds[0]] + KnownOnly(creds[1..])
    else KnownOnly(creds[1..])
  }

  /** Unknown service keys are skipped silently: they add no record, raise
      nothing, and do not disturb the records of the other entries. */
  lemma {:induction false} UnknownServicesIgnored(creds: Dict<string, CredParams>)
    ensures BuildCredentialsAsPrefs(creds) == BuildCredentialsAsPrefs(KnownOnly(creds))
    decreases |creds|
  {
    if |creds| > 0 {
      UnknownServicesIgnored(creds[1..]);
      if IsKnownService(creds[0].0) {
        var k := [creds[0]] + KnownOnly(creds[1..]);
        assert k[0] == creds[0];
        assert k[1..] == KnownOnly(creds[1..]);
      }
    }
  }

  // No record name holds a `|`, so each reads back whole. One lemma per
  // name keeps each proof small.
  lemma SshPortNoBar()
    ensures '|' !in SshPort
  {
  }

  lemma SshLoginNoBar()
    ensures '|' !in SshLogin
  {
  }

  lemma SshPasswordNoBar()
    ensures '|' !in SshPassword
  {
  }

  lemma SshPassphraseNoBar()
    ensures '|' !in SshPassphrase
  {
  }

  lemma SshPrivateKeyNoBar()
    ensures '|' !in SshPrivateKey
  {
  }

  lemma SmbLoginNoBar()
    ensures '|' !in SmbLogin
  {
  }

  lemma SmbPasswordNoBar()
    ensures '|' !in SmbPassword
  {
  }

  lemma EsxiLoginNoBar()
    ensures '|' !in EsxiLogin
  {
  }

  lemma EsxiPasswordNoBar()
    ensures '|' !in EsxiPassword
  {
  }

  lemma SnmpCommunityNoBar()
    ensures '|' !in SnmpCommunity
  {
  }

  lemma SnmpUsernameNoBar()
    ensures '|' !in SnmpUsername
  {
  }

  lemma SnmpPasswordNoBar()
    ensures '|' !in SnmpPassword
  {
  }

  lemma SnmpAuthAlgorithmNoBar()
    ensures '|' !in SnmpAuthAlgorithm
  {
  }

  lemma SnmpPrivacyPasswordNoBar()
    ensures '|' !in SnmpPrivacyPassword
  {
  }

  lemma SnmpPrivacyAlgorithmNoBar()
    ensures '|' !in SnmpPrivacyAlgorithm
  {
  }

  lemma SshNamesHaveNoBar()
    ensures '|' !in SshPort
    ensures '|' !in SshLogin
    ensures '|' !in SshPassword
    ensures '|' !in SshPassphrase
    ensures '|' !in SshPrivateKey
  {
    SshPortNoBar();
    SshLoginNoBar();
    SshPasswordNoBar();
    SshPassphraseNoBar();
    SshPrivateKeyNoBar();
  }

  lemma SmbEsxiNamesHaveNoBar()
    ensures '|' !in SmbLogin
    ensures '|' !in SmbPassword
    ensures '|' !in EsxiLogin
    ensures '|' !in EsxiPassword
  {
    SmbLoginNoBar();
    SmbPasswordNoBar();
    EsxiLoginNoBar();
    EsxiPasswordNoBar();
  }

  lemma SnmpNamesHaveNoBar()
    ensures '|' !in SnmpCommunity
    ensures '|' !in SnmpUsername
    ensures '|' !in SnmpPassword
  {
    SnmpCommunityNoBar();
    SnmpUsernameNoBar();
    SnmpPasswordNoBar();
  }

  lemma SnmpV3NamesHaveNoBar()
    ensures '|' !in SnmpAuthAlgorithm
    ensures '|' !in SnmpPrivacyPassword
    ensures '|' !in SnmpPrivacyAlgorithm
  {
    SnmpAuthAlgorithmNoBar();
    SnmpPrivacyPasswordNoBar();
    SnmpPrivacyAlgorithmNoBar();
  }

  /** The ssh entry's records for a username/password credential. */
  lemma SshUpPrefs(p: CredParams)
    requires Param(p, "type") == "up"
    ensures ServicePrefs("ssh", p) ==
      [Record(SshPort, Param(p, "port")), Record(SshLogin, Param(p, "username")), Record(SshPassword, Param(p, "password"))]
  {
  }

  /** A username/password ssh credential reads back, on the scanner side, as
      exactly the port, login name and password records, never as a
      private-key record. */
  lemma SshPasswordCredential(p: CredParams)
    requires Param(p, "type") == "up"
    ensures |ServicePrefs("ssh", p)| == 3
    ensures ParseRecord(ServicePrefs("ssh", p)[0]) == Some((SshPort, Param(p, "port")))
    ensures ParseRecord(ServicePrefs("ssh", p)[1]) == Some((SshLogin, Param(p, "username")))
    ensures ParseRecord(ServicePrefs("ssh", p)[2]) == Some((SshPassword, Param(p, "password")))
  {
    SshNamesHaveNoBar();
    RecordRoundTrip(SshPort, Param(p, "port"));
    RecordRoundTrip(SshLogin, Param(p, "username"));
    RecordRoundTrip(SshPassword, Param(p, "password"));
  }

  /** Any other ssh credential type reads back as port, login name, key
      passphrase (taken from `password`) and private key. */
  lemma SshKeyCredential(p: CredParams)
    requires Param(p, "type") != "up"
    ensures |ServicePrefs("ssh", p)| == 4
    ensures ParseRecord(ServicePrefs("ssh", p)[0]) == Some((SshPort, Param(p, "port")))
    ensures ParseRecord(ServicePrefs("ssh", p)[1]) == Some((SshLogin, Param(p, "username")))
    ensures ParseRecord(ServicePrefs("ssh", p)[2]) == Some((SshPassphrase, Param(p, "password")))
    ensures ParseRecord(ServicePrefs("ssh", p)[3]) == Some((SshPrivateKey, Param(p, "private")))
  {
    SshNamesHaveNoBar();
    RecordRoundTrip(SshPort, Param(p, "port"));
    RecordRoundTrip(SshLogin, Param(p, "username"));
    RecordRoundTrip(SshPassphrase, Param(p, "password"));
    RecordRoundTrip(SshPrivateKey, Param(p, "private"));
  }

  /** smb and esxi credentials read back as login and password records. */
  lemma SmbAndEsxiCredentials(p: CredParams)
    ensures ParseRecord(ServicePrefs("smb", p)[0]) == Some((SmbLogin, Param(p, "username")))
    ensures ParseRecord(ServicePrefs("smb", p)[1]) == Some((SmbPassword, Param(p, "password")))
    ensures ParseRecord(ServicePrefs("esxi", p)[0]) == Some((EsxiLogin, Param(p, "username")))
    ensures ParseRecord(ServicePrefs("esxi", p)[1]) == Some((EsxiPassword, Param(p, "password")))
  {
    SmbEsxiNamesHaveNoBar();
    RecordRoundTrip(SmbLogin, Param(p, "username"));
    RecordRoundTrip(SmbPassword, Param(p, "password"));
    RecordRoundTrip(EsxiLogin, Param(p, "username"));
    RecordRoundTrip(EsxiPassword, Param(p, "password"));
  }

  predicate NoBar(s: string) {
    '|' !in s
  }

  /** The snmp entry's six strings: each name run together with its value. */
  lemma SnmpPrefs(p: CredParams)
    ensures ServicePrefs("snmp", p) ==
      [ SnmpCommunity + Param(p, "community"),
        SnmpUsername + Param(p, "username"),
        SnmpPassword + Param(p, "password"),
        SnmpAuthAlgorithm + Param(p, "auth_algorithm"),
        SnmpPrivacyPassword + Param(p, "privacy_password"),
        SnmpPrivacyAlgorithm + Param(p, "privacy_algorithm") ]
  {
    assert "snmp" != "ssh" && "snmp" != "smb" && "snmp" != "esxi";
  }

  /** A parameter read from a credential whose values hold no `|` holds
      none either. */
  lemma ParamNoBar(p: CredParams, key: string)
    requires forall i :: 0 <= i < |p| ==> NoBar(p[i].1)
    ensures NoBar(Param(p, key))
  {
    var v := Get(p, key);
    if v.Some? {
      var i :| 0 <= i < |p| && p[i] == (key, v.value);
      assert NoBar(p[i].1);
    }
  }

  /** The six SNMP records carry no `|||` separator: when the credential's
      values hold no `|`, none of them reads back as a record. */
  lemma SnmpRecordsLackSeparator(p: CredParams)
    requires forall i :: 0 <= i < |p| ==> NoBar(p[i].1)
    ensures forall i :: 0 <= i < |ServicePrefs("snmp", p)| ==> ParseRecord(ServicePrefs("snmp", p)[i]) == None
  {
    SnmpPrefs(p);
    SnmpNamesHaveNoBar();
    SnmpV3NamesHaveNoBar();
    ParamNoBar(p, "community");
    ParamNoBar(p, "username");
    ParamNoBar(p, "password");
    ParamNoBar(p, "auth_algorithm");
    ParamNoBar(p, "privacy_password");
    ParamNoBar(p, "privacy_algorithm");
    var r := ServicePrefs("snmp", p);
    forall i | 0 <= i < |r|
      ensures ParseRecord(r[i]) == None
    {
      assert NoBar(r[i]);
      NoBarNoRecord(r[i]);
    }
  }

  /** A username/password ssh credential for `root` yields the port record,
      the login record `root` and the password record, and no private-key
      record. */
  lemma SshSample()
    ensures BuildCredentialsAsPrefs([("ssh", [("type", "up"), ("username", "root"), ("password", "x")])])
         == [Record(SshPort, ""), Record(SshLogin, "root"), Record(SshPassword, "x")]
  {
    var p: CredParams := [("type", "up"), ("username", "root"), ("password", "x")];
    var creds := [("ssh", p)];
    assert Param(p, "type") == "up";
    assert Param(p, "username") == "root" by {
      assert p[0].0 != "username";
    }
    assert Param(p, "password") == "x" by {
      assert p[0].0 != "password" && p[1].0 != "password";
    }
    assert Param(p, "port") == "" by {
      assert p[0].0 != "port" && p[1].0 != "port" && p[2].0 != "port";
    }
    SshUpPrefs(p);
    assert creds[1..] == [];
    assert BuildCredentialsAsPrefs(creds) == ServicePrefs("ssh", p) + [];
  }
}
