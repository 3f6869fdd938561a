/** Checking the five database settings read from the environment. Reading
    the environment and the `.env` file is outside this model; the five
    values are parameters. */
module Config {
  import opened Common

  /** The settings in the order they are checked, with the names the
      messages use. */
  const SettingNames := ["user", "host", "port", "password", "dbName"]

  /** The message for a missing setting. */
  function MissingMessage(name: string): string
  {
    name + " DB não definido"
  }

  /** The message when no setting is given at all. */
  const NoneDefinedMessage := "Nenhuma env foi DB foi definida"

  /** `validateEnvsDb`: no error exactly when every setting is given; when
      none is, the "none defined" message; otherwise the message naming the
      first missing setting in the fixed order. */
  function ValidateEnvsDb(user: string, host: string, port: string, password: string, dbName: string)
    : (r: Option<string>)
    ensures r.None? <==> user != "" && host != "" && port != "" && password != "" && dbName != ""
    ensures user == "" && host == "" && port == "" && password == "" && dbName == "" ==>
      r == Some(NoneDefinedMessage)
  {
    if user == "" && host == "" && port == "" && password == "" && dbName == "" then
      Some(NoneDefinedMessage)
    else if user == "" then Some(MissingMessage("user"))
    else if host == "" then Some(MissingMessage("host"))
    else if port == "" then Some(MissingMessage("port"))
    else if password == "" then Some(MissingMessage("password"))
    else if dbName == "" then Some(MissingMessage("dbName"))
    else None
  }

  /** Setting `k` is the first empty one. */
  predicate FirstMissing(values: seq<string>, k: int)
  {
    0 <= k < |values| && values[k] == "" && forall j :: 0 <= j < k ==> values[j] != ""
  }

  /** Unless every setting is empty, the error names the first empty
      setting in the order user, host, port, password, dbName. */
  lemma ReportsFirstMissing(user: string, host: string, port: string, password: string, dbName: string, k: int)
    requires FirstMissing([user, host, port, password, dbName], k)
    requires user != "" || host != "" || port != "" || password != "" || dbName != ""
    ensures ValidateEnvsDb(user, host, port, password, dbName) == Some(MissingMessage(SettingNames[k]))
  {
    var values := [user, host, port, password, dbName];
    if k >= 1 { assert values[0] != ""; }
    if k >= 2 { assert values[1] != ""; }
    if k >= 3 { assert values[2] != ""; }
    if k >= 4 { assert values[3] != ""; }
  }

  /** The "none defined" message is not any of the per-setting messages,
      so the all-empty case is told apart from a missing user. */
  lemma NoneDefinedIsDistinct(name: string)
    requires name in SettingNames
    ensures NoneDefinedMessage != MissingMessage(name)
  {
    assert NoneDefinedMessage[0] == 'N';
  }

  /** With only the user missing, the user is reported; the all-empty check
      does not swallow it. */
  lemma OnlyUserMissing(host: string, port: string, password: string, dbName: string)
    requires host != "" || port != "" || password != "" || dbName != ""
    ensures ValidateEnvsDb("", host, port, password, dbName) == Some("user DB não definido")
  {
    assert MissingMessage("user") == "user DB não definido";
  }
}
