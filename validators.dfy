/**
 * The two form schemas, as field predicates and as the validation that
 * reports one issue per failed check (keyed by the field's name, in schema
 * order) or yields the cleaned data. A failed check that aborts its field
 * (a value that is not a number, or a number that is not an integer) hides
 * the field's later checks. Messages set in the schemas are
 * reproduced exactly; the validation library's own default wordings are
 * named constants below.
 */
module Validators {
  import opened Wrappers
  import opened Schema

  /** A raw form value: absent key (`undefined`), `null`, text, or an already numeric value. */
  datatype Field = Undefined | Null | Text(text: string) | Number(num: Coerced)

  /** One validation issue: the path of the offending field and its message. */
  datatype Issue = Issue(path: seq<string>, message: string)

  const DateRequired: string := "Date is required"
  const NameRequired: string := "Name is required"
  const NameTooLong: string := "Name is too long"
  const AmountNotPositive: string := "Amount must be greater than 0"
  const TypeInvalid: string := "Please select Income or Expenditure"
  const EventRequired: string := "Event is required"
  const EventNameRequired: string := "Event name is required"

  // The validation library's default wordings.
  const DescriptionTooLong: string := "Too big: expected string to have <=500 characters"
  const NotAnInteger: string := "Invalid input: expected int, received number"
  const IntTooBig: string := "Too big: expected number to be <=9007199254740991"
  const IntTooSmall: string := "Too small: expected number to be >=-9007199254740991"

  const MaxNameLength: nat := 100
  const MaxEventNameLength: nat := 200
  const MaxDescriptionLength: nat := 500

  /** 2^53 - 1, the largest integer a double holds exactly. */
  const MaxSafeInteger: int := 0x1F_FFFF_FFFF_FFFF

  /** The library's message for a value of the wrong kind. */
  function ExpectedMessage(expected: string, f: Field): string
  {
    var received := match f
      case Undefined => "undefined"
      case Null => "null"
      case Text(_) => "string"
      case Number(NaN) => "NaN"
      case Number(_) => "number";
    "Invalid input: expected " + expected + ", received " + received
  }

  /** `Number(x)`: absent is NaN, `null` is 0, text goes through the numeric parser. */
  function Coerce(f: Field, toNumber: string -> Coerced): Coerced
  {
    match f
    case Undefined => NaN
    case Null => Finite(0.0)
    case Text(s) => toNumber(s)
    case Number(n) => n
  }

  // ---------------------------------------------------------------------
  // Field predicates
  // ---------------------------------------------------------------------

  predicate DateOk(f: Field)
  {
    f.Text? && |f.text| >= 1
  }

  predicate NameOk(f: Field, maxLength: nat)
  {
    f.Text? && 1 <= |f.text| <= maxLength
  }

  predicate AmountOk(c: Coerced)
  {
    c.Finite? && c.value > 0.0
  }

  predicate TypeOk(f: Field)
  {
    f == Text("income") || f == Text("expenditure")
  }

  /** Optional with a default: absent is fine, `null` is not. */
  predicate DescriptionOk(f: Field)
  {
    f.Undefined? || (f.Text? && |f.text| <= MaxDescriptionLength)
  }

  predicate IsSafeInteger(v: real)
  {
    v.Floor as real == v && -MaxSafeInteger <= v.Floor <= MaxSafeInteger
  }

  predicate EventIdOk(c: Coerced)
  {
    c.Finite? && IsSafeInteger(c.value) && c.value > 0.0
  }

  // ---------------------------------------------------------------------
  // Per-field checks: every failing check of a field contributes its message
  // ---------------------------------------------------------------------

  function DateMessages(f: Field): (ms: seq<string>)
    ensures ms == [] <==> DateOk(f)
  {
    if !f.Text? then [ExpectedMessage("string", f)]
    else if |f.text| < 1 then [DateRequired]
    else []
  }

  function NameMessages(f: Field, maxLength: nat, required: string): (ms: seq<string>)
    ensures ms == [] <==> NameOk(f, maxLength)
  {
    if !f.Text? then [ExpectedMessage("string", f)]
    else (if |f.text| < 1 then [required] else []) + (if |f.text| > maxLength then [NameTooLong] else [])
  }

  function AmountMessages(f: Field, toNumber: string -> Coerced): (ms: seq<string>)
    ensures ms == [] <==> AmountOk(Coerce(f, toNumber))
  {
    var c := Coerce(f, toNumber);
    if !c.Finite? then [ExpectedMessage("number", Number(c))]
    else if c.value <= 0.0 then [AmountNotPositive]
    else []
  }

  function TypeMessages(f: Field): (ms: seq<string>)
    ensures ms == [] <==> TypeOk(f)
  {
    if TypeOk(f) then [] else [TypeInvalid]
  }

  function DescriptionMessages(f: Field): (ms: seq<string>)
    ensures ms == [] <==> DescriptionOk(f)
  {
    if f.Undefined? then []
    else if !f.Text? then [ExpectedMessage("string", f)]
    else if |f.text| > MaxDescriptionLength then [DescriptionTooLong]
    else []
  }

  function EventIdMessages(f: Field, toNumber: string -> Coerced): (ms: seq<string>)
    ensures ms == [] <==> EventIdOk(Coerce(f, toNumber))
  {
    var c := Coerce(f, toNumber);
    if !c.Finite? then [ExpectedMessage("number", Number(c))]
    else if c.value.Floor as real != c.value then [NotAnInteger]
    else (if c.value.Floor > MaxSafeInteger then [IntTooBig]
          else if c.value.Floor < -MaxSafeInteger then [IntTooSmall]
          else [])
         + (if c.value > 0.0 then [] else [EventRequired])
  }

  /**
   * The integer check aborts the event id's chain: a fraction gets its
   * message alone, and an integer gets the positivity message exactly when
   * it is not positive.
   */
  lemma EventIdMessagesChain(f: Field, toNumber: string -> Coerced)
    ensures var c := Coerce(f, toNumber);
      c.Finite? && c.value.Floor as real != c.value ==> EventIdMessages(f, toNumber) == [NotAnInteger]
    ensures var c := Coerce(f, toNumber);
      c.Finite? && c.value.Floor as real == c.value ==>
        && (EventRequired in EventIdMessages(f, toNumber) <==> c.value <= 0.0)
        && NotAnInteger !in EventIdMessages(f, toNumber)
  {
  }

  /** The messages of one field, as issues whose path is that field's name. */
  function Tag(key: string, ms: seq<string>): (issues: seq<Issue>)
    ensures |issues| == |ms|
    ensures forall i :: 0 <= i < |ms| ==> issues[i] == Issue([key], ms[i])
  {
    seq(|ms|, i requires 0 <= i < |ms| => Issue([key], ms[i]))
  }

  // ---------------------------------------------------------------------
  // The transaction schema
  // ---------------------------------------------------------------------

  datatype TransactionForm = TransactionForm(
    date: Field, name: Field, amount: Field, txType: Field, description: Field, eventId: Field)

  datatype TransactionData = TransactionData(
    date: string, name: string, amount: real, txType: TxType, description: string, eventId: int)

  predicate TransactionValid(raw: TransactionForm, toNumber: string -> Coerced)
  {
    && DateOk(raw.date)
    && NameOk(raw.name, MaxNameLength)
    && AmountOk(Coerce(raw.amount, toNumber))
    && TypeOk(raw.txType)
    && DescriptionOk(raw.description)
    && EventIdOk(Coerce(raw.eventId, toNumber))
  }

  /** The checks of the transaction schema, field by field in schema order. */
  function TransactionChecks(raw: TransactionForm, toNumber: string -> Coerced): seq<(string, seq<string>)>
  {
    [("date", DateMessages(raw.date)),
     ("name", NameMessages(raw.name, MaxNameLength, NameRequired)),
     ("amount", AmountMessages(raw.amount, toNumber)),
     ("type", TypeMessages(raw.txType)),
     ("description", DescriptionMessages(raw.description)),
     ("eventId", EventIdMessages(raw.eventId, toNumber))]
  }

  /** All issues of a list of field checks, in order. */
  function TagAll(checks: seq<(string, seq<string>)>): seq<Issue>
  {
    if checks == [] then [] else Tag(checks[0].0, checks[0].1) + TagAll(checks[1..])
  }

  /** The names of the fields whose check failed. */
  function FailingKeys(checks: seq<(string, seq<string>)>): set<string>
  {
    if checks == [] then {}
    else (if checks[0].1 == [] then {} else {checks[0].0}) + FailingKeys(checks[1..])
  }

  /** Every issue names a failing field, every failing field has an issue, and no issue means no failure. */
  lemma {:induction false} TagAllNamesFailures(checks: seq<(string, seq<string>)>)
    ensures TagAll(checks) == [] <==> FailingKeys(checks) == {}
    ensures forall i :: 0 <= i < |TagAll(checks)| ==>
      |TagAll(checks)[i].path| == 1 && TagAll(checks)[i].path[0] in FailingKeys(checks)
    ensures forall k :: k in FailingKeys(checks) ==>
      exists i :: 0 <= i < |TagAll(checks)| && TagAll(checks)[i].path == [k]
  {
    if checks != [] {
      TagAllNamesFailures(checks[1..]);
      var head := Tag(checks[0].0, checks[0].1);
      var rest := TagAll(checks[1..]);
      assert TagAll(checks) == head + rest;
      forall k | k in FailingKeys(checks)
        ensures exists i :: 0 <= i < |TagAll(checks)| && TagAll(checks)[i].path == [k]
      {
        if k in FailingKeys(checks[1..]) {
          var i :| 0 <= i < |rest| && rest[i].path == [k];
          assert TagAll(checks)[|head| + i] == rest[i];
        } else {
          assert TagAll(checks)[0] == head[0];
        }
      }
    }
  }

  /** The names of the transaction fields that fail their predicate. */
  function TransactionFailures(raw: TransactionForm, toNumber: string -> Coerced): (keys: set<string>)
    ensures keys == {} <==> TransactionValid(raw, toNumber)
  {
    (if DateOk(raw.date) then {} else {"date"})
    + (if NameOk(raw.name, MaxNameLength) then {} else {"name"})
    + (if AmountOk(Coerce(raw.amount, toNumber)) then {} else {"amount"})
    + (if TypeOk(raw.txType) then {} else {"type"})
    + (if DescriptionOk(raw.description) then {} else {"description"})
    + (if EventIdOk(Coerce(raw.eventId, toNumber)) then {} else {"eventId"})
  }

  lemma TransactionChecksFailures(raw: TransactionForm, toNumber: string -> Coerced)
    ensures FailingKeys(TransactionChecks(raw, toNumber)) == TransactionFailures(raw, toNumber)
  {
    var g := TransactionChecks(raw, toNumber);
    var g1, g2, g3, g4, g5 := g[1..], g[2..], g[3..], g[4..], g[5..];
    assert g1[1..] == g2 && g2[1..] == g3 && g3[1..] == g4 && g4[1..] == g5 && g5[1..] == [];
    assert FailingKeys(g5) == (if g[5].1 == [] then {} else {g[5].0});
    assert FailingKeys(g4) == (if g[4].1 == [] then {} else {g[4].0}) + FailingKeys(g5);
    assert FailingKeys(g3) == (if g[3].1 == [] then {} else {g[3].0}) + FailingKeys(g4);
    assert FailingKeys(g2) == (if g[2].1 == [] then {} else {g[2].0}) + FailingKeys(g3);
    assert FailingKeys(g1) == (if g[1].1 == [] then {} else {g[1].0}) + FailingKeys(g2);
  }

  /**
   * `transactionSchema.safeParse`: the cleaned data exactly when every
   * field passes, with the description defaulting to empty and the amount
   * and event id coerced to numbers; otherwise the issues, which name
   * exactly the failing fields.
   */
  function ParseTransaction(raw: TransactionForm, toNumber: string -> Coerced): (r: Result<TransactionData, seq<Issue>>)
    ensures r.Success? <==> TransactionValid(raw, toNumber)
    ensures r.Success? ==>
      && r.value.date == raw.date.text && r.value.name == raw.name.text
      && Coerce(raw.amount, toNumber) == Finite(r.value.amount) && r.value.amount > 0.0
      && (r.value.txType == Income <==> raw.txType == Text("income"))
      && r.value.description == (if raw.description.Undefined? then "" else raw.description.text)
      && Coerce(raw.eventId, toNumber) == Finite(r.value.eventId as real) && r.value.eventId > 0
    ensures r.Failure? ==>
      && r.error != []
      && (forall i :: 0 <= i < |r.error| ==> |r.error[i].path| == 1 && r.error[i].path[0] in TransactionFailures(raw, toNumber))
      && (forall k :: k in TransactionFailures(raw, toNumber) ==> exists i :: 0 <= i < |r.error| && r.error[i].path == [k])
  {
    var issues := TagAll(TransactionChecks(raw, toNumber));
    TagAllNamesFailures(TransactionChecks(raw, toNumber));
    TransactionChecksFailures(raw, toNumber);
    if issues == [] then
      var eventId := Coerce(raw.eventId, toNumber).value;
      Success(TransactionData(
        raw.date.text,
        raw.name.text,
        Coerce(raw.amount, toNumber).value,
        if raw.txType == Text("income") then Income else Expenditure,
        if raw.description.Undefined? then "" else raw.description.text,
        eventId.Floor))
    else Failure(issues)
  }

  lemma TagPaths(key: string, ms: seq<string>, failing: bool)
    requires ms == [] <==> !failing
    ensures forall i :: 0 <= i < |Tag(key, ms)| ==> Tag(key, ms)[i].path == [key]
    ensures failing ==> exists i :: 0 <= i < |Tag(key, ms)| && Tag(key, ms)[i].path == [key]
  {
    if failing {
      assert Tag(key, ms)[0].path == [key];
    }
  }

  // ---------------------------------------------------------------------
  // The event schema
  // ---------------------------------------------------------------------

  datatype EventForm = EventForm(name: Field, description: Field)

  datatype EventData = EventData(name: string, description: string)

  predicate EventValid(raw: EventForm)
  {
    NameOk(raw.name, MaxEventNameLength) && DescriptionOk(raw.description)
  }

  /**
   * `eventSchema.safeParse`: the cleaned data exactly when the name has
   * 1 to 200 characters and the description is absent or at most 500;
   * otherwise issues, each naming a failing field, and one for each.
   */
  function ParseEvent(raw: EventForm): (r: Result<EventData, seq<Issue>>)
    ensures r.Success? <==> EventValid(raw)
    ensures r.Success? ==>
      && r.value.name == raw.name.text
      && r.value.description == (if raw.description.Undefined? then "" else raw.description.text)
    ensures r.Failure? ==>
      && (forall i :: 0 <= i < |r.error| ==>
            || (r.error[i].path == ["name"] && !NameOk(raw.name, MaxEventNameLength))
            || (r.error[i].path == ["description"] && !DescriptionOk(raw.description)))
      && (!NameOk(raw.name, MaxEventNameLength) ==> exists i :: 0 <= i < |r.error| && r.error[i].path == ["name"])
      && (!DescriptionOk(raw.description) ==> exists i :: 0 <= i < |r.error| && r.error[i].path == ["description"])
  {
    var a := Tag("name", NameMessages(raw.name, MaxEventNameLength, EventNameRequired));
    var b := Tag("description", DescriptionMessages(raw.description));
    TagPaths("name", NameMessages(raw.name, MaxEventNameLength, EventNameRequired), !NameOk(raw.name, MaxEventNameLength));
    TagPaths("description", DescriptionMessages(raw.description), !DescriptionOk(raw.description));
    if a + b == [] then
      Success(EventData(raw.name.text, if raw.description.Undefined? then "" else raw.description.text))
    else
      assert forall i :: 0 <= i < |a| ==> (a + b)[i] == a[i];
      assert forall i :: |a| <= i < |a + b| ==> (a + b)[i] == b[i - |a|];
      assert !NameOk(raw.name, MaxEventNameLength) ==> (a + b)[0] == a[0];
      assert !DescriptionOk(raw.description) ==> (a + b)[|a|] == b[0];
      Failure(a + b)
  }
}
