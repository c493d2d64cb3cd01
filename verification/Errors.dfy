/** errors.go: chains of errors, what they report, and their JSON form. */
module Errors {
  import opened Wrappers

  const INTERNAL := "internal error"
  const GENERIC_MESSAGE := "An internal error has occurred."

  /**
    A Go `error`. An `Error` holds the next one; `NilPointer` is a `*Error` that
    is nil inside a non-nil interface; `Foreign` is an error of another type.
   */
  datatype Err = NoError | NilPointer | Foreign(kind: string, text: string) | Error(code: string, msg: string, op: string, err: Err)

  /** The type that `errors.New` returns. */
  const PLAIN := "*errors.errorString"

  // ------------------------------------------------------------- Reporting

  /** errors.go, ErrorCode. */
  function ErrorCode(e: Err): string {
    match e
    case NoError => ""
    case NilPointer => ""
    case Foreign(_, _) => INTERNAL
    case Error(code, _, _, err) => if code != "" then code else if err != NoError then ErrorCode(err) else INTERNAL
  }

  /** errors.go, ErrorOp. */
  function ErrorOp(e: Err): string {
    match e
    case Error(_, _, op, err) => if op != "" then op else if err != NoError then ErrorOp(err) else ""
    case _ => ""
  }

  /** errors.go, ErrorMessage. */
  function ErrorMessage(e: Err): string {
    match e
    case NoError => ""
    case NilPointer => ""
    case Foreign(_, _) => GENERIC_MESSAGE
    case Error(_, msg, _, err) => if msg != "" then msg else if err != NoError then ErrorMessage(err) else GENERIC_MESSAGE
  }

  /** errors.go, Error.Error; `None` is a nil pointer dereference. */
  function Text(e: Err): Option<string> {
    match e
    case NoError => None
    case NilPointer => None
    case Foreign(_, text) => Some(text)
    case Error(code, msg, _, err) =>
      if msg != "" && err != NoError then (if Text(err).None? then None else Some(msg + ": " + Text(err).value))
      else if msg != "" then Some(msg)
      else if err != NoError then Text(err)
      else Some("<" + code + ">")
  }

  // ---------------------------------------- What the reports are, by the chain

  /** What the chain ends in. */
  function End(e: Err): Err {
    if e.Error? then End(e.err) else e
  }

  predicate NonBlank(s: string) {
    s != ""
  }

  /** The outermost text that is not empty. */
  function Outermost(ss: seq<string>): Option<string> {
    if ss == [] then None else if NonBlank(ss[0]) then Some(ss[0]) else Outermost(ss[1..])
  }

  function Codes(e: Err): seq<string> {
    if e.Error? then [e.code] + Codes(e.err) else []
  }

  function Ops(e: Err): seq<string> {
    if e.Error? then [e.op] + Ops(e.err) else []
  }

  function Messages(e: Err): seq<string> {
    if e.Error? then [e.msg] + Messages(e.err) else []
  }

  function Otherwise(s: Option<string>, default: string): string {
    if s.Some? then s.value else default
  }

  /** The reports are the outermost that was given, and a default that depends on the end alone. */
  lemma {:induction false} ReportsOutermost(e: Err)
    requires e != NoError
    ensures ErrorCode(e) == Otherwise(Outermost(Codes(e)), if End(e) == NilPointer then "" else "internal error")
    ensures ErrorOp(e) == Otherwise(Outermost(Ops(e)), "")
    ensures ErrorMessage(e) ==
            Otherwise(Outermost(Messages(e)), if End(e) == NilPointer then "" else "An internal error has occurred.")
  {
    if e.Error? {
      assert ([e.code] + Codes(e.err))[1..] == Codes(e.err);
      assert ([e.op] + Ops(e.err))[1..] == Ops(e.err);
      assert ([e.msg] + Messages(e.err))[1..] == Messages(e.err);
      if e.err != NoError {
        ReportsOutermost(e.err);
      }
    }
  }

  /** The messages of the chain, then what its end says. */
  function Parts(e: Err): seq<string> {
    match e
    case NoError => []
    case NilPointer => []
    case Foreign(_, text) => [text]
    case Error(code, msg, _, err) =>
      (if msg != "" then [msg] else if err == NoError then ["<" + code + ">"] else []) + Parts(err)
  }

  function Joined(ss: seq<string>): string {
    if ss == [] then "" else if |ss| == 1 then ss[0] else ss[0] + ": " + Joined(ss[1..])
  }

  lemma {:induction false} PartsNonEmpty(e: Err)
    requires e != NoError && End(e) != NilPointer
    ensures Parts(e) != []
  {
    if e.Error? && e.err != NoError {
      PartsNonEmpty(e.err);
    }
  }

  /** The text is the parts joined by colons. */
  lemma {:induction false} TextIsJoined(e: Err)
    requires e != NoError && End(e) != NilPointer
    ensures Text(e) == Some(Joined(Parts(e)))
  {
    if e.Error? && e.err != NoError {
      TextIsJoined(e.err);
      PartsNonEmpty(e.err);
      var rest := Parts(e.err);
      assert [] + rest == rest;
      assert ([e.msg] + rest)[1..] == rest;
    } else if e.Error? {
      assert Parts(e.err) == [];
    }
  }

  /** For instance: the text of a single error, and of one around an error of another type. */
  lemma TextExamples(code: string, msg: string, op: string, kind: string, text: string)
    ensures Text(Error(code, "", op, NoError)) == Some("<" + code + ">")
    ensures msg != "" ==> Text(Error(code, msg, op, NoError)) == Some(msg)
    ensures msg != "" ==> Text(Error(code, msg, op, Foreign(kind, text))) == Some(msg + ": " + text)
    ensures Text(Error(code, "", op, Foreign(kind, text))) == Some(text)
  {
  }

  /** Writing the text fails exactly on a chain that ends in a nil pointer. */
  lemma {:induction false} TextFailsIff(e: Err)
    requires e != NoError
    ensures Text(e) == None <==> End(e) == NilPointer
  {
    if e.Error? && e.err != NoError {
      TextFailsIff(e.err);
    }
  }

  // ------------------------------------------------------------------- JSON

  /** A JSON value; of an object, the members that are looked at. */
  datatype Json = Absent | Null | Other | Str(s: string) | Object(code: Json, message: Json, op: Json, error: Json)

  function OmitEmpty(s: string): Json {
    if s == "" then Absent else Str(s)
  }

  /** What errors.go, Error.MarshalJSON writes; `None` is a nil pointer dereference. */
  function Encode(e: Err): Option<Json>
    requires e.Error? || e == NilPointer
  {
    if e == NilPointer then None
    else
      match e.err
      case NoError => Some(Object(Str(e.code), OmitEmpty(e.msg), OmitEmpty(e.op), Absent))
      case Foreign(_, text) => Some(Object(Str(e.code), OmitEmpty(e.msg), OmitEmpty(e.op), Str(text)))
      case _ =>
        var inner := Encode(e.err);
        if inner.None? then None else Some(Object(Str(e.code), OmitEmpty(e.msg), OmitEmpty(e.op), inner.value))
  }

  function Depth(e: Err): nat {
    if e.Error? then 1 + Depth(e.err) else 0
  }

  function Pow2(n: nat): nat {
    if n == 0 then 1 else 2 * Pow2(n - 1)
  }

  /**
    errors.go, Error.MarshalJSON: it marshals the inner error to see whether
    that fails, and `json.Marshal` then does so again. `calls` counts the calls.
   */
  method MarshalJSON(e: Err) returns (r: Option<Json>, calls: nat)
    requires e.Error? || e == NilPointer
    ensures r == Encode(e)
    ensures r.Some? ==> calls == Pow2(Depth(e)) - 1
  {
    if e == NilPointer {
      return None, 1;
    }
    var error := Absent;
    calls := 1;
    if e.err != NoError {
      if e.err.Error? || e.err == NilPointer {
        var check, n := MarshalJSON(e.err);
        if check.None? {
          return None, calls + n;
        }
        var inner, m := MarshalJSON(e.err);
        calls := calls + n + m;
        error := inner.value;
      } else {
        error := Str(e.err.text);
      }
    }
    r := Some(Object(Str(e.code), OmitEmpty(e.msg), OmitEmpty(e.op), error));
  }

  function TextOf(j: Json): string {
    if j.Str? then j.s else ""
  }

  /** errors.go, decodeInternalError. */
  function DecodeInternal(j: Json): Err {
    match j
    case Str(s) => Foreign(PLAIN, s)
    case Object(code, message, op, error) => Error(TextOf(code), TextOf(message), TextOf(op), DecodeInternal(error))
    case _ => NoError
  }

  predicate Stringy(j: Json) {
    j.Absent? || j.Null? || j.Str?
  }

  /** The receiver of errors.go, Error.UnmarshalJSON. */
  class Receiver {
    var code: string
    var msg: string
    var op: string
    var err: Err

    ghost function Value(): Err
      reads this
    {
      Error(code, msg, op, err)
    }

    /** Sets every field even where it reports that the JSON does not fit. */
    method UnmarshalJSON(j: Json) returns (ok: bool)
      requires j != Absent
      modifies this
      ensures code == (if j.Object? && j.code.Str? then j.code.s else "")
      ensures msg == (if j.Object? && j.message.Str? then j.message.s else "")
      ensures op == (if j.Object? && j.op.Str? then j.op.s else "")
      ensures err.NoError? <==> !(j.Object? && (j.error.Str? || j.error.Object?))
      ensures j.Object? && j.error.Str? ==> err == Foreign(PLAIN, j.error.s)
      ensures Value() == if j.Object? then DecodeInternal(j) else Error("", "", "", NoError)
      ensures ok <==> j.Null? || (j.Object? && Stringy(j.code) && Stringy(j.message) && Stringy(j.op))
    {
      var target: Json := Absent;
      code, msg, op := "", "", "";
      ok := true;
      if j.Object? {
        code, msg, op := TextOf(j.code), TextOf(j.message), TextOf(j.op);
        target := j.error;
        ok := Stringy(j.code) && Stringy(j.message) && Stringy(j.op);
      } else {
        ok := j.Null?;
      }
      err := DecodeInternal(target);
    }
  }

  // -------------------------------------------------------------- The round trip

  /** The chain with a foreign end replaced by a plain error of the same text. */
  function Plain(e: Err): Err {
    match e
    case Error(code, msg, op, err) => Error(code, msg, op, Plain(err))
    case Foreign(_, text) => Foreign(PLAIN, text)
    case _ => e
  }

  /** Encoding fails exactly on a chain that ends in a nil pointer. */
  lemma {:induction false} EncodeFailsIff(e: Err)
    requires e.Error? || e == NilPointer
    ensures Encode(e) == None <==> End(e) == NilPointer
  {
    if e.Error? && (e.err.Error? || e.err == NilPointer) {
      EncodeFailsIff(e.err);
    }
  }

  /** The members that are written: the code always, a message and an operation that are not empty, and the inner error. */
  lemma EncodeMembers(e: Err)
    requires e.Error? && Encode(e).Some?
    ensures Encode(e).value.Object?
    ensures var j := Encode(e).value;
            && j.code == Str(e.code)
            && (if e.msg == "" then j.message == Absent else j.message == Str(e.msg))
            && (if e.op == "" then j.op == Absent else j.op == Str(e.op))
            && (j.error == Absent <==> e.err == NoError)
            && (forall text :: j.error == Str(text) <==> e.err.Foreign? && e.err.text == text)
            && (e.err.Error? ==> Some(j.error) == Encode(e.err))
  {
    if e.err.Error? {
      DecodeEncode(e.err);
    }
  }

  /** Decoding what was encoded gives every code, message, operation and the nesting back. */
  lemma {:induction false} DecodeEncode(e: Err)
    requires e.Error? && Encode(e).Some?
    ensures Encode(e).value.Object? && DecodeInternal(Encode(e).value) == Plain(e)
  {
    if e.err.Error? {
      DecodeEncode(e.err);
    }
  }

  /** Nothing that is reported about a chain is lost. */
  lemma {:induction false} PlainReportsSame(e: Err)
    ensures ErrorCode(Plain(e)) == ErrorCode(e) && ErrorOp(Plain(e)) == ErrorOp(e)
    ensures ErrorMessage(Plain(e)) == ErrorMessage(e) && Text(Plain(e)) == Text(e)
    ensures Plain(Plain(e)) == Plain(e)
  {
    if e.Error? {
      PlainReportsSame(e.err);
    }
  }

  /** Two chains have the same JSON exactly when they differ in the type of a foreign end only. */
  lemma EncodeSameIff(a: Err, b: Err)
    requires a.Error? && b.Error? && Encode(a).Some? && Encode(b).Some?
    ensures Encode(a) == Encode(b) <==> Plain(a) == Plain(b)
  {
    DecodeEncode(a);
    DecodeEncode(b);
    EncodePlain(a);
    EncodePlain(b);
  }

  lemma {:induction false} EncodePlain(e: Err)
    requires e.Error?
    ensures Encode(Plain(e)) == Encode(e)
  {
    if e.err.Error? {
      EncodePlain(e.err);
    }
  }
}
