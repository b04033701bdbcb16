/**
 * The decoded fields of an upload request and how `handleUpdate` picks the
 * password out of them (src/AViShaOTA.cpp:336-353), and the comparison that
 * decides whether the upload is authorised (src/AViShaOTA.cpp:334, 361).
 */
module FormArgs {
  import opened Optional

  /** The field that carries the update password. */
  const PASSWORD_FIELD: string := "password"

  /** One decoded request argument, as `argName(i)` / `arg(i)` report it. */
  datatype Arg = Arg(name: string, value: string)

  /**
   * What the web server lets the handler see of a request: the indexed
   * arguments (`args()`, `argName(i)`, `arg(i)`), and the answer of its own
   * by-name lookup `hasArg("password")` / `arg("password")`. The web server
   * answers that lookup from more places than the indexed arguments (fields
   * of a multipart body among them), so it is an input of its own.
   */
  datatype Form = Form(args: seq<Arg>, named: Option<string>)

  /** Index of the first argument called `name`, or `|args|` if there is none. */
  function FirstIndexOf(args: seq<Arg>, name: string): (k: nat)
    ensures k <= |args|
    ensures forall j :: 0 <= j < k ==> args[j].name != name
    ensures k < |args| ==> args[k].name == name
  {
    if args == [] then 0
    else if args[0].name == name then 0
    else 1 + FirstIndexOf(args[1..], name)
  }

  /** The result of the by-name lookup: its value when the field is there, "" otherwise. */
  function NamedLookup(form: Form): string {
    match form.named
    case Some(v) => v
    case None => ""
  }

  /**
   * The password the handler compares: the by-name lookup if it is not
   * empty, else the value of the first indexed argument called "password",
   * else "".
   */
  function ReceivedPassword(form: Form): string {
    var byName := NamedLookup(form);
    if byName != "" then byName
    else
      var k := FirstIndexOf(form.args, PASSWORD_FIELD);
      if k < |form.args| then form.args[k].value else byName
  }

  /** The three ways the received password is determined. */
  lemma ReceivedPasswordCases(form: Form)
    ensures form.named.Some? && form.named.value != "" ==>
              ReceivedPassword(form) == form.named.value
    ensures (form.named.None? || form.named.value == "") ==>
              forall i :: 0 <= i < |form.args| && form.args[i].name == PASSWORD_FIELD &&
                          (forall j :: 0 <= j < i ==> form.args[j].name != PASSWORD_FIELD) ==>
                ReceivedPassword(form) == form.args[i].value
    ensures (form.named.None? || form.named.value == "") &&
            (forall i :: 0 <= i < |form.args| ==> form.args[i].name != PASSWORD_FIELD) ==>
              ReceivedPassword(form) == ""
  {
  }

  /**
   * The fallback scan only adds something when the by-name lookup and the
   * indexed arguments disagree: if the lookup finds exactly the first
   * indexed "password" argument, the password is that argument's value.
   */
  lemma FallbackRedundantWhenLookupsAgree(form: Form)
    requires FirstIndexOf(form.args, PASSWORD_FIELD) < |form.args|
    requires form.named == Some(form.args[FirstIndexOf(form.args, PASSWORD_FIELD)].value)
    ensures ReceivedPassword(form) == form.args[FirstIndexOf(form.args, PASSWORD_FIELD)].value
  {
  }

  /**
   * The handler's decision: with no configured password every request is
   * authorised; otherwise only an exact match is.
   */
  predicate PasswordAccepted(otaPassword: string, received: string) {
    otaPassword == "" || received == otaPassword
  }

  /**
   * The lookup as the handler performs it: the by-name lookup, then, if that
   * gave nothing, a scan of the indexed arguments that stops at the first
   * "password".
   */
  method ReadReceivedPassword(form: Form) returns (received: string)
    ensures received == ReceivedPassword(form)
  {
    received := "";
    if form.named.Some? {
      received := form.named.value;
    }
    if |received| == 0 {
      for i := 0 to |form.args|
        invariant received == ""
        invariant forall j :: 0 <= j < i ==> form.args[j].name != PASSWORD_FIELD
      {
        if form.args[i].name == PASSWORD_FIELD {
          received := form.args[i].value;
          break;
        }
      }
    }
  }
}
