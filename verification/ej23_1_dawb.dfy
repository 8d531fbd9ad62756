/**
 * The age prompt of ej23_1_dawb.py: an age is asked for until an integer in
 * 1..125 is typed, and then the years 1..age are listed, one per line.
 * Python's `int(input(...))` is abstracted as a sequence of already parsed
 * inputs: `None` stands for a text that is not an integer.
 */
module Ej231Dawb {
  import opened Wrappers

  /** The three rejections of `validar_edad`, in the order the function checks them. */
  datatype AgeError = Negative | Zero | TooOld

  /** `validar_edad`: `None` when the age is accepted, otherwise the first check that fails. */
  function ValidateAge(age: int): (r: Option<AgeError>)
    ensures r.None? <==> 1 <= age <= 125
    ensures r == Some(Negative) <==> age < 0
    ensures r == Some(Zero) <==> age == 0
    ensures r == Some(TooOld) <==> age > 125
  {
    if age < 0 then Some(Negative)
    else if age == 0 then Some(Zero)
    else if age > 125 then Some(TooOld)
    else None
  }

  /** The message each rejection raises. */
  function Reason(e: AgeError): string {
    match e
    case Negative => "La edad no puede ser negativa!"
    case Zero => "La edad no puede ser cero!"
    case TooOld => "La edad no puede ser superior a 125!"
  }

  /** What the prompt complains about before asking again. */
  datatype Complaint = NotANumber | OutOfRange(reason: AgeError)

  /** The error line printed for a complaint. */
  const NotANumberText := "*ERROR* El número introducido no es válido!. Inténtalo de nuevo!"
  const RetryText := ". Inténtalo de nuevo!"

  function ComplaintText(c: Complaint): string {
    match c
    case NotANumber => NotANumberText
    case OutOfRange(e) => "*ERROR* " + Reason(e) + RetryText
  }

  predicate InRange(input: Option<int>) {
    input.Some? && 1 <= input.value <= 125
  }

  /** The complaint an input that is not accepted draws: not a number, or the validator's reason. */
  function ComplaintFor(input: Option<int>): Complaint
    requires !InRange(input)
  {
    if input.None? then NotANumber else OutOfRange(ValidateAge(input.value).value)
  }

  /** The accepted age and the complaints printed on the way, for the given inputs. */
  function Prompt(inputs: seq<Option<int>>): (r: (Option<int>, seq<Complaint>))
    ensures r.0.Some? ==> 1 <= r.0.value <= 125
    ensures |r.1| <= |inputs|
  {
    if inputs == [] then (None, [])
    else
      match inputs[0]
      case None =>
        var rest := Prompt(inputs[1..]);
        (rest.0, [NotANumber] + rest.1)
      case Some(age) =>
        match ValidateAge(age)
        case None => (Some(age), [])
        case Some(e) =>
          var rest := Prompt(inputs[1..]);
          (rest.0, [OutOfRange(e)] + rest.1)
  }

  /**
   * The prompt returns the first input that is an integer in range, after one
   * complaint for each input before it (a non-integer draws `NotANumber`, a
   * rejected integer the validator's reason); with no such input it returns
   * nothing, after one complaint per input.
   */
  lemma {:induction false} PromptFindsFirstInRange(inputs: seq<Option<int>>)
    ensures Prompt(inputs).0.None? <==> forall k :: 0 <= k < |inputs| ==> !InRange(inputs[k])
    ensures Prompt(inputs).0.Some? ==>
      (exists k :: 0 <= k < |inputs| && inputs[k] == Prompt(inputs).0
        && |Prompt(inputs).1| == k && forall j :: 0 <= j < k ==> !InRange(inputs[j]))
    ensures Prompt(inputs).0.None? ==> |Prompt(inputs).1| == |inputs|
    ensures forall k :: 0 <= k < |Prompt(inputs).1| ==>
      !InRange(inputs[k]) && Prompt(inputs).1[k] == ComplaintFor(inputs[k])
  {
    if inputs != [] {
      var rest := inputs[1..];
      PromptFindsFirstInRange(rest);
      if !InRange(inputs[0]) {
        forall k | 1 <= k < |inputs| ensures inputs[k] == rest[k - 1] { }
        var c := Prompt(inputs).1;
        assert c == [ComplaintFor(inputs[0])] + Prompt(rest).1;
        forall k | 0 <= k < |c| ensures !InRange(inputs[k]) && c[k] == ComplaintFor(inputs[k]) {
          if k > 0 {
            assert c[k] == Prompt(rest).1[k - 1];
          }
        }
        if Prompt(inputs).0.Some? {
          var k :| 0 <= k < |rest| && rest[k] == Prompt(rest).0
            && |Prompt(rest).1| == k && forall j :: 0 <= j < k ==> !InRange(rest[j]);
          assert inputs[k + 1] == Prompt(inputs).0;
          forall j | 0 <= j < k + 1 ensures !InRange(inputs[j]) {
            if j > 0 { assert inputs[j] == rest[j - 1]; }
          }
        }
      } else {
        assert inputs[0] == Prompt(inputs).0;
      }
    }
  }

  /** The error lines the prompt prints, one per complaint. */
  function Messages(inputs: seq<Option<int>>): (lines: seq<string>)
    ensures |lines| == |Prompt(inputs).1|
  {
    var c := Prompt(inputs).1;
    seq(|c|, k requires 0 <= k < |c| => ComplaintText(c[k]))
  }

  /**
   * Each error line answers the input read at that point: the "not valid"
   * text for a non-integer, the validator's message for a rejected integer.
   */
  lemma PromptMessages(inputs: seq<Option<int>>)
    ensures forall k :: 0 <= k < |Messages(inputs)| ==>
      && !InRange(inputs[k])
      && Messages(inputs)[k] == (
        if inputs[k].None? then NotANumberText
        else "*ERROR* " + Reason(ValidateAge(inputs[k].value).value) + RetryText)
  {
    PromptFindsFirstInRange(inputs);
  }

  /**
   * `pedir_edad`: reads until an integer passes validation. Both a text that is
   * not an integer and a rejected integer leave `edad` at `None` (the latter by
   * the reset in the error handler), so the loop goes on. When the inputs run
   * out before an age is accepted, `age` is `None`.
   */
  method ReadAge(inputs: seq<Option<int>>) returns (age: Option<int>, complaints: seq<Complaint>)
    ensures (age, complaints) == Prompt(inputs)
  {
    age := None;
    complaints := [];
    var i := 0;
    assert inputs[0..] == inputs;
    assert complaints + Prompt(inputs).1 == Prompt(inputs).1;
    while age == None && i < |inputs|
      invariant 0 <= i <= |inputs|
      invariant age.None? ==> Prompt(inputs) == (Prompt(inputs[i..]).0, complaints + Prompt(inputs[i..]).1)
      invariant age.Some? ==> Prompt(inputs) == (age, complaints)
    {
      assert inputs[i..][0] == inputs[i] && inputs[i..][1..] == inputs[i + 1..];
      ghost var later := Prompt(inputs[i + 1..]);
      age := inputs[i];
      i := i + 1;
      if age.None? {
        assert complaints + ([NotANumber] + later.1) == (complaints + [NotANumber]) + later.1;
        complaints := complaints + [NotANumber];
      } else {
        var check := ValidateAge(age.value);
        if check.Some? {
          assert complaints + ([OutOfRange(check.value)] + later.1) == (complaints + [OutOfRange(check.value)]) + later.1;
          age := None;
          complaints := complaints + [OutOfRange(check.value)];
        } else {
          assert complaints + [] == complaints;
        }
      }
    }
    if age.None? {
      assert inputs[i..] == [];
      assert complaints + [] == complaints;
    }
  }

  /** `mostrar_anios_cumplidos`: the years 1, 2, ..., age, one per printed line. */
  method ShowYears(age: int) returns (years: seq<int>)
    ensures |years| == if age < 1 then 0 else age
    ensures forall k :: 0 <= k < |years| ==> years[k] == k + 1
  {
    years := [];
    var i := 1;
    while i < age + 1
      invariant 1 <= i <= if age >= 1 then age + 1 else 1
      invariant |years| == i - 1
      invariant forall k :: 0 <= k < |years| ==> years[k] == k + 1
    {
      years := years + [i];
      i := i + 1;
    }
  }
}
