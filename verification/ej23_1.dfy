/**
 * The age prompt of ej23_1.py: it asks for an age, checks it, and lists the
 * years 1..age on one line separated by ", ". Unlike ej23_1_dawb.py its loop
 * does not forget an integer that failed the check, so that integer is
 * returned. Python's `int(input(...))` is abstracted as a sequence of already
 * parsed inputs: `None` stands for a text that is not an integer.
 */
module Ej231 {
  import opened Wrappers
  import opened Text
  import opened Digits
  import Ej231Dawb

  /** The three rejections of `validar_edad`, in the order the function checks them. */
  datatype AgeError = Negative | Zero | TooOld

  /** `validar_edad`: `None` when the age is accepted, otherwise the first check that fails. */
  function ValidateAge(age: int): (r: Option<AgeError>)
    ensures r.None? <==> 1 <= age <= 125
    ensures r == Some(Negative) <==> age < 0
    ensures r == Some(Zero) <==> age == 0
    ensures r == Some(TooOld) <==> age > 125
  {
    if age < 0 then Some(Negative)
    else if age == 0 then Some(Zero)
    else if age > 125 then Some(TooOld)
    else None
  }

  /** The message each rejection raises. */
  function Reason(e: AgeError): string {
    match e
    case Negative => "La edad debe ser un número positivo."
    case Zero => "La edad debe ser un número positivo mayor que cero."
    case TooOld => "La edad debe ser un número inferior o igual a 125."
  }

  /** What the prompt complains about. */
  datatype Complaint = NotANumber | OutOfRange(reason: AgeError)

  /** The error line printed for a complaint. */
  const NotANumberText := "*ERROR* El número introducido no es un entero válido. Inténtalo de nuevo."
  const RetryText := ". Inténtalo de nuevo."

  function ComplaintText(c: Complaint): string {
    match c
    case NotANumber => NotANumberText
    case OutOfRange(e) => "*ERROR* " + Reason(e) + RetryText
  }

  /**
   * What `pedir_edad` returns and complains about, as written: the first input
   * that is an integer ends the loop whether or not it passed the check.
   */
  function Prompt(inputs: seq<Option<int>>): (r: (Option<int>, seq<Complaint>))
    ensures |r.1| <= |inputs|
    ensures r.0.None? <==> forall k :: 0 <= k < |inputs| ==> inputs[k].None?
    ensures r.0.Some? ==> r.0 in inputs
  {
    if inputs == [] then (None, [])
    else
      match inputs[0]
      case None =>
        var rest := Prompt(inputs[1..]);
        assert forall k :: 1 <= k < |inputs| ==> inputs[k] == inputs[1..][k - 1];
        assert inputs == [inputs[0]] + inputs[1..];
        (rest.0, [NotANumber] + rest.1)
      case Some(age) =>
        (Some(age), match ValidateAge(age) case None => [] case Some(e) => [OutOfRange(e)])
  }

  /** How many inputs before the first integer are not integers. */
  function LeadingNones(inputs: seq<Option<int>>): (n: nat)
    ensures n <= |inputs|
    ensures forall j :: 0 <= j < n ==> inputs[j].None?
    ensures n < |inputs| ==> inputs[n].Some?
  {
    if inputs == [] || inputs[0].Some? then 0
    else
      var n := LeadingNones(inputs[1..]);
      assert forall j :: 1 <= j < n + 1 ==> inputs[j] == inputs[1..][j - 1];
      n + 1
  }

  /** `n` complaints that the input was not an integer. */
  function NotNumbers(n: nat): (r: seq<Complaint>)
    ensures |r| == n && forall j :: 0 <= j < n ==> r[j] == NotANumber
  {
    if n == 0 then [] else [NotANumber] + NotNumbers(n - 1)
  }

  /**
   * The prompt returns the first integer among the inputs, in range or not,
   * after one complaint per non-integer before it, plus one more when that
   * integer failed the check; with no integer at all it returns nothing.
   */
  lemma {:induction false} PromptReturnsFirstInteger(inputs: seq<Option<int>>)
    ensures var n := LeadingNones(inputs);
      Prompt(inputs) ==
        if n == |inputs| then (None, NotNumbers(n))
        else (inputs[n], NotNumbers(n) + match ValidateAge(inputs[n].value) case None => [] case Some(e) => [OutOfRange(e)])
  {
    if inputs != [] && inputs[0].None? {
      var rest := inputs[1..];
      PromptReturnsFirstInteger(rest);
      var n := LeadingNones(rest);
      assert LeadingNones(inputs) == n + 1;
      assert NotNumbers(n + 1) == [NotANumber] + NotNumbers(n);
      if n < |rest| {
        assert inputs[n + 1] == rest[n];
        var extra: seq<Complaint> := match ValidateAge(rest[n].value) case None => [] case Some(e) => [OutOfRange(e)];
        assert [NotANumber] + (NotNumbers(n) + extra) == NotNumbers(n + 1) + extra;
      }
    } else if inputs != [] {
      var extra: seq<Complaint> := match ValidateAge(inputs[0].value) case None => [] case Some(e) => [OutOfRange(e)];
      assert NotNumbers(0) + extra == extra;
    }
  }

  /** The error lines the prompt prints, one per complaint. */
  function Messages(inputs: seq<Option<int>>): (lines: seq<string>)
    ensures |lines| == |Prompt(inputs).1|
  {
    var c := Prompt(inputs).1;
    seq(|c|, k requires 0 <= k < |c| => ComplaintText(c[k]))
  }

  /** Complaint by complaint, the closed form of `PromptReturnsFirstInteger`. */
  lemma PromptComplaints(inputs: seq<Option<int>>)
    ensures forall k :: 0 <= k < |Prompt(inputs).1| && k < LeadingNones(inputs) ==> Prompt(inputs).1[k] == NotANumber
    ensures forall k :: 0 <= k < |Prompt(inputs).1| && k >= LeadingNones(inputs) ==>
      && k == LeadingNones(inputs) && k < |inputs| && inputs[k].Some? && ValidateAge(inputs[k].value).Some?
      && Prompt(inputs).1[k] == OutOfRange(ValidateAge(inputs[k].value).value)
  {
    PromptReturnsFirstInteger(inputs);
    var n, c := LeadingNones(inputs), Prompt(inputs).1;
    var extra: seq<Complaint> := [];
    if n < |inputs| && ValidateAge(inputs[n].value).Some? {
      extra := [OutOfRange(ValidateAge(inputs[n].value).value)];
    } else if n < |inputs| {
      assert NotNumbers(n) + [] == NotNumbers(n);
    }
    assert c == NotNumbers(n) + extra;
    forall k | 0 <= k < |c| && k < n ensures c[k] == NotANumber {
      assert c[k] == NotNumbers(n)[k];
    }
    forall k | 0 <= k < |c| && k >= n
      ensures k == n && k < |inputs| && inputs[k].Some? && ValidateAge(inputs[k].value).Some?
      ensures c[k] == OutOfRange(ValidateAge(inputs[k].value).value)
    {
      assert extra != [] && c[k] == extra[k - n];
    }
  }

  /**
   * The prompt prints the "not a valid integer" text once per non-integer
   * before the first integer, and then, when that integer fails the check,
   * the validator's message.
   */
  lemma PromptMessages(inputs: seq<Option<int>>, k: int)
    requires 0 <= k < |Messages(inputs)|
    ensures k < LeadingNones(inputs) ==> Messages(inputs)[k] == NotANumberText
    ensures k >= LeadingNones(inputs) ==>
      && k == LeadingNones(inputs) && k < |inputs| && inputs[k].Some? && ValidateAge(inputs[k].value).Some?
      && Messages(inputs)[k] == "*ERROR* " + Reason(ValidateAge(inputs[k].value).value) + RetryText
  {
    PromptComplaints(inputs);
    var c := Prompt(inputs).1;
    if k < LeadingNones(inputs) {
      assert c[k] == NotANumber;
    } else {
      assert c[k] == OutOfRange(ValidateAge(inputs[k].value).value);
    }
  }

  /** An integer that fails the check is still what the prompt returns. */
  lemma RejectedAgeEscapes()
    ensures Prompt([Some(200)]) == (Some(200), [OutOfRange(TooOld)])
    ensures Prompt([None, Some(-3), Some(30)]) == (Some(-3), [NotANumber, OutOfRange(Negative)])
    ensures Prompt([Some(0), Some(30)]).0 == Some(0)
  {
    assert [None, Some(-3), Some(30)][1..] == [Some(-3), Some(30)];
    assert Prompt([Some(-3), Some(30)]) == (Some(-3), [OutOfRange(Negative)]);
    assert [NotANumber] + [OutOfRange(Negative)] == [NotANumber, OutOfRange(Negative)];
  }

  /**
   * `pedir_edad` as written: after a failed check `edad` keeps the rejected
   * integer, so the loop stops there. When the inputs run out before an
   * integer is read, `age` is `None`.
   */
  method ReadAge(inputs: seq<Option<int>>) returns (age: Option<int>, complaints: seq<Complaint>)
    ensures (age, complaints) == Prompt(inputs)
  {
    age := None;
    complaints := [];
    var i := 0;
    assert inputs[0..] == inputs;
    assert complaints + Prompt(inputs).1 == Prompt(inputs).1;
    while age == None && i < |inputs|
      invariant 0 <= i <= |inputs|
      invariant age.None? ==> Prompt(inputs) == (Prompt(inputs[i..]).0, complaints + Prompt(inputs[i..]).1)
      invariant age.Some? ==> Prompt(inputs) == (age, complaints)
    {
      assert inputs[i..][0] == inputs[i] && inputs[i..][1..] == inputs[i + 1..];
      ghost var later := Prompt(inputs[i + 1..]);
      age := inputs[i];
      i := i + 1;
      if age.None? {
        assert complaints + ([NotANumber] + later.1) == (complaints + [NotANumber]) + later.1;
        complaints := complaints + [NotANumber];
      } else {
        var check := ValidateAge(age.value);
        if check.Some? {
          complaints := complaints + [OutOfRange(check.value)];
        } else {
          assert complaints + [] == complaints;
        }
      }
    }
    if age.None? {
      assert inputs[i..] == [];
      assert complaints + [] == complaints;
    }
  }

  /** The age a prompt that asks again after every rejection would return: the first one in range. */
  function RetryingPrompt(inputs: seq<Option<int>>): (r: Option<int>)
    ensures r.Some? ==> 1 <= r.value <= 125
    ensures r.None? ==> forall k :: 0 <= k < |inputs| ==> !(inputs[k].Some? && 1 <= inputs[k].value <= 125)
  {
    if inputs == [] then None
    else if inputs[0].Some? && ValidateAge(inputs[0].value).None? then inputs[0]
    else
      var r := RetryingPrompt(inputs[1..]);
      assert forall k :: 1 <= k < |inputs| ==> inputs[k] == inputs[1..][k - 1];
      r
  }

  /**
   * The corrected prompt returns what the prompt of ej23_1_dawb.py returns,
   * whose loop resets `edad` after a rejection.
   */
  lemma {:induction false} RetryingPromptIsDawbPrompt(inputs: seq<Option<int>>)
    ensures RetryingPrompt(inputs) == Ej231Dawb.Prompt(inputs).0
  {
    if inputs != [] {
      RetryingPromptIsDawbPrompt(inputs[1..]);
    }
  }

  /** Where the inputs hold an age in range, the retrying prompt returns the first of them. */
  lemma {:induction false} RetryingPromptFindsFirst(inputs: seq<Option<int>>, k: nat)
    requires k < |inputs| && inputs[k].Some? && 1 <= inputs[k].value <= 125
    requires forall j :: 0 <= j < k ==> !(inputs[j].Some? && 1 <= inputs[j].value <= 125)
    ensures RetryingPrompt(inputs) == inputs[k]
  {
    if k > 0 {
      var rest := inputs[1..];
      assert !(inputs[0].Some? && 1 <= inputs[0].value <= 125);
      assert rest[k - 1] == inputs[k];
      forall j | 0 <= j < k - 1 ensures !(rest[j].Some? && 1 <= rest[j].value <= 125) {
        assert rest[j] == inputs[j + 1];
      }
      RetryingPromptFindsFirst(rest, k - 1);
    }
  }

  /** Items joined by a separator, with nothing after the last one. */
  function JoinWith(items: seq<string>, sep: string): string {
    if items == [] then ""
    else if |items| == 1 then items[0]
    else items[0] + sep + JoinWith(items[1..], sep)
  }

  lemma {:induction false} JoinWithSnoc(items: seq<string>, last: string, sep: string)
    requires items != []
    ensures JoinWith(items + [last], sep) == JoinWith(items, sep) + sep + last
  {
    var all := items + [last];
    assert all[0] == items[0];
    if |items| == 1 {
      assert all[1..] == [last];
    } else {
      assert all[1..] == items[1..] + [last];
      JoinWithSnoc(items[1..], last, sep);
    }
  }

  /** The decimal renderings of 1, 2, ..., n. */
  function Numbers(n: nat): (r: seq<string>)
    ensures |r| == n
  {
    seq(n, k requires 0 <= k => Decimal(k + 1))
  }

  /** What `mostrar_anios_cumplidos` prints: "1, 2, ..., age" and a newline, or nothing when age < 1. */
  function YearsText(age: int): (r: string)
    ensures age < 1 <==> r == ""
    ensures age >= 1 ==> r[|r| - 1] == '\n' && r[0] == '1'
  {
    if age < 1 then "" else JoinWith(Numbers(age), ", ") + "\n"
  }

  /**
   * `mostrar_anios_cumplidos`: for each year, its number followed by ", ",
   * except the last, which is followed by the end of the line.
   */
  method ShowYears(age: int) returns (text: string)
    ensures text == YearsText(age)
  {
    text := "";
    var i := 1;
    while i < age + 1
      invariant 1 <= i <= if age >= 1 then age + 1 else 1
      invariant text == if i == 1 then "" else if i <= age then Upto(i - 1) + ", " else YearsText(age)
    {
      UptoNext(i);
      if i == age {
        text := text + Decimal(i) + "\n";
      } else {
        text := text + Decimal(i) + ", ";
      }
      i := i + 1;
    }
  }

  /** "1, 2, ..., n" for n >= 1. */
  function Upto(n: nat): string
    requires n >= 1
  {
    JoinWith(Numbers(n), ", ")
  }

  lemma UptoNext(n: nat)
    requires n >= 1
    ensures Upto(n) == if n == 1 then Decimal(1) else Upto(n - 1) + ", " + Decimal(n)
  {
    if n > 1 {
      assert Numbers(n) == Numbers(n - 1) + [Decimal(n)];
      JoinWithSnoc(Numbers(n - 1), Decimal(n), ", ");
    } else {
      assert Numbers(1) == [Decimal(1)];
    }
  }

  lemma {:induction false} NoCommaInDecimal(n: nat)
    ensures Count(Decimal(n), ',') == 0
  {
    var d := Decimal(n);
    assert forall i :: 0 <= i < |d| ==> IsDigit(d[i]);
    CountAbsent(d, ',');
  }

  lemma {:induction false} JoinWithCommas(items: seq<string>)
    requires forall k :: 0 <= k < |items| ==> Count(items[k], ',') == 0
    requires items != []
    ensures Count(JoinWith(items, ", "), ',') == |items| - 1
  {
    if |items| > 1 {
      var rest := items[1..];
      JoinWithCommas(rest);
      CountAppend(items[0], ", ", ',');
      CountAppend(items[0] + ", ", JoinWith(rest, ", "), ',');
      assert Count(", ", ',') == 1;
    }
  }

  /**
   * The listing holds `age` numbers and `age - 1` separators: the last number,
   * `age` itself, is followed by the end of the line and not by ", "; an age
   * below 1 prints nothing.
   */
  lemma YearsTextShape(age: int)
    ensures age < 1 ==> YearsText(age) == ""
    ensures age >= 1 ==> Count(YearsText(age), ',') == age - 1
    ensures age > 1 ==> YearsText(age) == Upto(age - 1) + ", " + Decimal(age) + "\n"
    ensures age == 1 ==> YearsText(age) == "1\n"
  {
    if age >= 1 {
      var items := Numbers(age);
      forall k | 0 <= k < |items| ensures Count(items[k], ',') == 0 {
        NoCommaInDecimal(k + 1);
      }
      JoinWithCommas(items);
      CountAppend(JoinWith(items, ", "), "\n", ',');
      UptoNext(age);
    }
  }

  /** The listing for an age of 3. */
  lemma YearsTextExample()
    ensures YearsText(3) == "1, 2, 3\n"
  {
    assert Numbers(3) == ["1", "2", "3"];
    assert Numbers(3)[1..] == ["2", "3"];
    assert ["2", "3"][1..] == ["3"];
  }
}
