/**
 * The ledger command interpreter of practicau2_1_bonus.py: a balance, a
 * purchase counter, a sale counter and a one-slot undo snapshot, driven by
 * lines such as "compra 100", "venta 50", "saldo", "reset", "deshacer",
 * "limpiar" and "fin".
 */
module Ledger {
  import opened Wrappers
  import opened Text
  import opened Amount
  import opened Digits

  /** The fixed vocabulary of commands (`COMANDOS`). */
  datatype Command = Compra | Venta | Saldo | Reset | Deshacer | Limpiar | Fin

  const Commands: seq<string> := ["compra", "venta", "saldo", "reset", "deshacer", "limpiar", "fin"]

  function Name(c: Command): string {
    match c
    case Compra => "compra"
    case Venta => "venta"
    case Saldo => "saldo"
    case Reset => "reset"
    case Deshacer => "deshacer"
    case Limpiar => "limpiar"
    case Fin => "fin"
  }

  function ParseCommand(w: string): (r: Option<Command>)
    ensures r.Some? ==> Name(r.value) == w
  {
    if w == "compra" then Some(Compra)
    else if w == "venta" then Some(Venta)
    else if w == "saldo" then Some(Saldo)
    else if w == "reset" then Some(Reset)
    else if w == "deshacer" then Some(Deshacer)
    else if w == "limpiar" then Some(Limpiar)
    else if w == "fin" then Some(Fin)
    else None
  }

  /** `comprobar_comando`: membership in the vocabulary. */
  function IsCommand(w: string): (ok: bool)
    ensures ok <==> ParseCommand(w).Some?
    ensures ok <==> exists c: Command :: Name(c) == w
  {
    assert forall c: Command :: ParseCommand(Name(c)) == Some(c);
    w in Commands
  }

  /** Every command name parses back to its command. */
  lemma ParseName(c: Command)
    ensures ParseCommand(Name(c)) == Some(c)
  {
  }

  /**
   * `recuperar_comando_e_importe`: one word gives a command alone, two words a
   * command and an amount text, anything else nothing at all.
   */
  function CommandAndAmount(line: string): (r: (Option<string>, Option<string>))
    ensures r.0.Some? <==> |Words(line)| == 1 || |Words(line)| == 2
    ensures r.1.Some? <==> |Words(line)| == 2
    ensures r.0.Some? ==> r.0.value == Words(line)[0]
    ensures r.1.Some? ==> r.1.value == Words(line)[1]
  {
    var words := Words(line);
    if |words| == 1 then (Some(words[0]), None)
    else if |words| == 2 then (Some(words[0]), Some(words[1]))
    else (None, None)
  }

  /** The documented behaviour of the splitter, for any words. */
  lemma CommandAndAmountOfWords(w0: string, w1: string, w2: string, blank: string)
    requires IsWord(w0) && IsWord(w1) && IsWord(w2)
    requires forall i :: 0 <= i < |blank| ==> IsSpace(blank[i])
    ensures CommandAndAmount(w0) == (Some(w0), None)
    ensures CommandAndAmount(w0 + " " + w1) == (Some(w0), Some(w1))
    ensures CommandAndAmount(w0 + " " + w1 + " " + w2) == (None, None)
    ensures CommandAndAmount(blank) == (None, None)
  {
    assert Words(w0) == [w0] by {
      WordsOfJoin([w0]);
    }
    assert Words(w0 + " " + w1) == [w0, w1] by {
      WordsOfJoin([w0, w1]);
      assert [w0, w1][1..] == [w1];
    }
    assert Words(w0 + " " + w1 + " " + w2) == [w0, w1, w2] by {
      JoinThree(w0, w1, w2);
      WordsOfJoin([w0, w1, w2]);
    }
    WordsOfBlank(blank);
  }

  lemma JoinThree(w0: string, w1: string, w2: string)
    ensures JoinWords([w0, w1, w2]) == w0 + " " + w1 + " " + w2
  {
    assert [w0, w1, w2][1..] == [w1, w2];
    assert [w1, w2][1..] == [w2];
    assert JoinWords([w1, w2]) == w1 + " " + w2;
    assert JoinWords([w0, w1, w2]) == w0 + " " + JoinWords([w1, w2]);
    assert w0 + " " + (w1 + " " + w2) == w0 + " " + w1 + " " + w2;
  }

  /** `procesar_compra`: a purchase takes the amount off the balance. */
  function Purchase(balance: real, amount: real): (r: real)
    ensures Sale(r, amount) == balance
    ensures amount > 0.0 ==> r < balance
  {
    balance - amount
  }

  /** `procesar_venta`: a sale adds the amount to the balance. */
  function Sale(balance: real, amount: real): (r: real)
    ensures amount > 0.0 ==> r > balance
    ensures amount < 0.0 ==> r < balance
  {
    balance + amount
  }

  /** A purchase of the same amount undoes a sale. */
  lemma SaleThenPurchase(balance: real, amount: real)
    ensures Purchase(Sale(balance, amount), amount) == balance
  {
  }

  /** Balance and counters: the values `guardar_valores` groups together. */
  datatype Totals = Totals(balance: real, purchases: nat, sales: nat)

  const Zero := Totals(0.0, 0, 0)

  /** The loop's variables: the live totals and the undo snapshot (`ultimo_*`). */
  datatype State = State(current: Totals, undo: Totals)

  const Initial := State(Zero, Zero)

  /** What one line prints; the `{:.2f}` rendering of the balance is left abstract. */
  datatype Output =
    | Nothing
    | ShowBalance(shown: Totals)    // "Saldo actual = ..."
    | ShowPrevious(shown: Totals)   // "Saldo anterior = ..."
    | Undone                        // "Última operación deshecha."
    | ClearScreen
    | InvalidEntry                  // "*ERROR* Entrada inválida"

  /** `resetear_saldo`: announces the totals it is given and yields all zeros. */
  function ResetTotals(t: Totals): (Totals, Output) {
    (Zero, ShowPrevious(t))
  }

  datatype Outcome = Outcome(state: State, output: Output, running: bool)

  /** The words of an input line after `.lower()`. */
  function Tokens(line: string): seq<string> {
    Words(Lower(line))
  }

  /**
   * One iteration of the loop in `main` on one input line. Stopping and
   * refusing a line leave the state alone, and the snapshot is either kept
   * or overwritten with the totals from before the line.
   */
  function Step(s: State, line: string): (r: Outcome)
    ensures !r.running ==> r.state == s && r.output == Nothing
    ensures r.output == InvalidEntry ==> r.state == s && r.running
    ensures r.state.undo == s.undo || r.state.undo == s.current
  {
    var (cmd, amt) := CommandAndAmount(Lower(line));
    var validAmount := amt.Some? && CheckAmount(amt.value);
    if (cmd == Some("compra") || cmd == Some("venta")) && validAmount then
      var t, value := s.current, AmountValue(amt.value);
      var next :=
        if cmd == Some("compra") then Totals(Purchase(t.balance, value), t.purchases + 1, t.sales)
        else Totals(Sale(t.balance, value), t.purchases, t.sales + 1);
      Outcome(State(next, t), Nothing, true)
    else if cmd.Some? && cmd.value in ["saldo", "reset", "deshacer", "limpiar", "fin"] && amt.None? then
      if cmd.value == "saldo" then Outcome(s, ShowBalance(s.current), true)
      else if cmd.value == "reset" then
        var (zeros, shown) := ResetTotals(s.current);
        Outcome(State(zeros, s.current), shown, true)
      else if cmd.value == "deshacer" then Outcome(State(s.undo, s.undo), Undone, true)
      else if cmd.value == "limpiar" then Outcome(s, ClearScreen, true)
      else Outcome(s, Nothing, false)
    else
      Outcome(s, InvalidEntry, true)
  }

  /** The line is read in lower case, so the case of its letters does not matter. */
  lemma StepIgnoresCase(s: State, line: string)
    ensures Step(s, line) == Step(s, Lower(line))
  {
    LowerIdempotent(line);
  }

  /** An upper-case command is the same command. */
  lemma UpperCaseExample(s: State)
    ensures Step(s, "COMPRA 100") == Step(s, "compra 100")
  {
    assert Lower("COMPRA 100") == "compra 100";
    StepIgnoresCase(s, "COMPRA 100");
  }

  // ---------------------------------------------------------------------
  // Classes of input lines, stated on the line's words alone.

  predicate IsTrade(line: string) {
    var t := Tokens(line);
    |t| == 2 && (t[0] == "compra" || t[0] == "venta") && CheckAmount(t[1])
  }

  predicate IsBare(line: string, word: string) {
    Tokens(line) == [word]
  }

  /** The lines the interpreter accepts. */
  predicate WellFormed(line: string) {
    IsTrade(line) || exists w :: w in ["saldo", "reset", "deshacer", "limpiar", "fin"] && IsBare(line, w)
  }

  /** A valid purchase: snapshot first, then balance − amount and one more purchase. */
  lemma StepPurchase(s: State, line: string, amount: string)
    requires Tokens(line) == ["compra", amount] && CheckAmount(amount)
    ensures Step(s, line) == Outcome(
      State(Totals(s.current.balance - AmountValue(amount), s.current.purchases + 1, s.current.sales), s.current),
      Nothing, true)
  {
  }

  /** A valid sale: snapshot first, then balance + amount and one more sale. */
  lemma StepSale(s: State, line: string, amount: string)
    requires Tokens(line) == ["venta", amount] && CheckAmount(amount)
    ensures Step(s, line) == Outcome(
      State(Totals(s.current.balance + AmountValue(amount), s.current.purchases, s.current.sales + 1), s.current),
      Nothing, true)
  {
  }

  /** `reset`: snapshot first, announce the old totals, then zero them. */
  lemma StepReset(s: State, line: string)
    requires IsBare(line, "reset")
    ensures Step(s, line) == Outcome(State(Zero, s.current), ShowPrevious(s.current), true)
  {
  }

  /** `deshacer`: the totals become the snapshot, and the snapshot stays as it was. */
  lemma StepUndo(s: State, line: string)
    requires IsBare(line, "deshacer")
    ensures Step(s, line) == Outcome(State(s.undo, s.undo), Undone, true)
  {
  }

  /** `saldo` and `limpiar` only print (or clear the screen). */
  lemma StepQuery(s: State, line: string)
    requires IsBare(line, "saldo") || IsBare(line, "limpiar")
    ensures Step(s, line).state == s && Step(s, line).running
    ensures Step(s, line).output == if IsBare(line, "saldo") then ShowBalance(s.current) else ClearScreen
  {
  }

  /** Only a bare `fin` ends the loop, and it changes nothing. */
  lemma StepStops(s: State, line: string)
    ensures !Step(s, line).running <==> IsBare(line, "fin")
    ensures !Step(s, line).running ==> Step(s, line).state == s
  {
  }

  /** The error is printed exactly for ill-formed lines, and then nothing changes. */
  lemma StepRejects(s: State, line: string)
    ensures Step(s, line).output == InvalidEntry <==> !WellFormed(line)
    ensures Step(s, line).output == InvalidEntry ==> Step(s, line).state == s && Step(s, line).running
  {
    var t := Tokens(line);
    if !WellFormed(line) {
      assert !IsTrade(line);
      forall w | w in ["saldo", "reset", "deshacer", "limpiar", "fin"] ensures t != [w] {
        assert !IsBare(line, w);
      }
      if |t| == 1 {
        assert t == [t[0]];
        assert t[0] !in ["saldo", "reset", "deshacer", "limpiar", "fin"];
      }
    } else if !IsTrade(line) {
      var w :| w in ["saldo", "reset", "deshacer", "limpiar", "fin"] && IsBare(line, w);
    }
  }

  /** Every line the interpreter accepts starts with a word of the vocabulary. */
  lemma AcceptedStartsWithCommand(s: State, line: string)
    requires Step(s, line).output != InvalidEntry
    ensures |Tokens(line)| > 0 && IsCommand(Tokens(line)[0])
  {
    StepRejects(s, line);
    if !IsTrade(line) {
      var w :| w in ["saldo", "reset", "deshacer", "limpiar", "fin"] && IsBare(line, w);
    }
  }

  /** The snapshot changes only through a trade or a reset, and then it holds the old totals. */
  lemma StepSnapshot(s: State, line: string)
    ensures Step(s, line).state.undo != s.undo ==> (IsTrade(line) || IsBare(line, "reset"))
    ensures IsTrade(line) || IsBare(line, "reset") ==> Step(s, line).state.undo == s.current
  {
  }

  /** Undoing twice in a row is the same as undoing once. */
  lemma UndoTwice(s: State, first: string, second: string)
    requires IsBare(first, "deshacer") && IsBare(second, "deshacer")
    ensures Step(Step(s, first).state, second) == Step(s, first)
  {
    StepUndo(s, first);
    StepUndo(Step(s, first).state, second);
  }

  /** An undo right after a trade or a reset brings back the totals from before it. */
  lemma UndoRestores(s: State, change: string, undo: string)
    requires IsTrade(change) || IsBare(change, "reset")
    requires IsBare(undo, "deshacer")
    ensures Step(Step(s, change).state, undo).state == State(s.current, s.current)
  {
    StepSnapshot(s, change);
    StepUndo(Step(s, change).state, undo);
  }

  // ---------------------------------------------------------------------
  // The whole session: `main` reading line after line until `fin`.

  /** What a run of the loop leaves behind: the state, what it printed, how many lines it read. */
  datatype Session = Session(state: State, outputs: seq<Output>, consumed: nat, ended: bool)

  /** The loop of `main` over the input lines, stopping after `fin` or when the lines run out. */
  function Run(s: State, lines: seq<string>): (r: Session)
    ensures r.consumed <= |lines| && |r.outputs| == r.consumed
    ensures !r.ended ==> r.consumed == |lines|
    decreases |lines|
  {
    if lines == [] then Session(s, [], 0, false)
    else
      var o := Step(s, lines[0]);
      if !o.running then Session(o.state, [o.output], 1, true)
      else
        var rest := Run(o.state, lines[1..]);
        Session(rest.state, [o.output] + rest.outputs, rest.consumed + 1, rest.ended)
  }

  /** `outputs` and `read` lines already behind, followed by the session `r`. */
  function After(outputs: seq<Output>, read: nat, r: Session): Session {
    Session(r.state, outputs + r.outputs, read + r.consumed, r.ended)
  }

  /** The run from line `i` on is that line's step followed by the run from the next line. */
  lemma RunCons(s: State, lines: seq<string>, i: nat)
    requires i < |lines|
    ensures var o := Step(s, lines[i]);
      Run(s, lines[i..]) ==
        if o.running then After([o.output], 1, Run(o.state, lines[i + 1..]))
        else Session(o.state, [o.output], 1, true)
  {
    assert lines[i..][0] == lines[i] && lines[i..][1..] == lines[i + 1..];
  }

  /** Running the lines after one step is the step followed by the rest of the run. */
  lemma RunAdvance(s: State, lines: seq<string>, i: nat, outputs: seq<Output>)
    requires i < |lines|
    ensures var o := Step(s, lines[i]);
      After(outputs, i, Run(s, lines[i..])) ==
        if o.running then After(outputs + [o.output], i + 1, Run(o.state, lines[i + 1..]))
        else Session(o.state, outputs + [o.output], i + 1, true)
  {
    assert lines[i..][0] == lines[i] && lines[i..][1..] == lines[i + 1..];
    var o := Step(s, lines[i]);
    if o.running {
      var rest := Run(o.state, lines[i + 1..]);
      assert outputs + ([o.output] + rest.outputs) == (outputs + [o.output]) + rest.outputs;
    }
  }

  /** The session ends exactly at the first bare `fin`, and never without one. */
  lemma {:induction false} RunStopsAtFirstFin(s: State, lines: seq<string>)
    ensures Run(s, lines).ended <==> exists k :: 0 <= k < |lines| && IsBare(lines[k], "fin")
    ensures Run(s, lines).ended ==> IsBare(lines[Run(s, lines).consumed - 1], "fin")
    ensures forall k :: 0 <= k < Run(s, lines).consumed - 1 ==> !IsBare(lines[k], "fin")
    decreases |lines|
  {
    if lines != [] {
      var o := Step(s, lines[0]);
      StepStops(s, lines[0]);
      if o.running {
        RunStopsAtFirstFin(o.state, lines[1..]);
        var r := Run(s, lines);
        forall k | 0 <= k < r.consumed - 1 ensures !IsBare(lines[k], "fin") {
          if k > 0 { assert lines[k] == lines[1..][k - 1]; }
        }
        if exists k :: 0 <= k < |lines| && IsBare(lines[k], "fin") {
          var k :| 0 <= k < |lines| && IsBare(lines[k], "fin");
          assert k > 0 && IsBare(lines[1..][k - 1], "fin");
        }
        if r.ended {
          assert lines[r.consumed - 1] == lines[1..][r.consumed - 2];
        }
      }
    }
  }

  /** The signed effect of a trade line on the balance. */
  function TradeDelta(line: string): real
    requires IsTrade(line)
  {
    var t := Tokens(line);
    if t[0] == "venta" then AmountValue(t[1]) else -AmountValue(t[1])
  }

  /** Sum of sales minus sum of purchases over a run of trade lines. */
  function Net(lines: seq<string>): real
    requires forall k :: 0 <= k < |lines| ==> IsTrade(lines[k])
  {
    if lines == [] then 0.0 else TradeDelta(lines[0]) + Net(lines[1..])
  }

  /** How many of the lines have `word` as their first word. */
  function CountLeading(lines: seq<string>, word: string): nat {
    if lines == [] then 0
    else (if |Tokens(lines[0])| > 0 && Tokens(lines[0])[0] == word then 1 else 0) + CountLeading(lines[1..], word)
  }

  /** The lines after the first of a run of trade lines are trade lines. */
  lemma TradesTail(lines: seq<string>)
    requires |lines| > 0 && forall k :: 0 <= k < |lines| ==> IsTrade(lines[k])
    ensures forall k :: 0 <= k < |lines[1..]| ==> IsTrade(lines[1..][k])
  {
    assert forall k :: 0 <= k < |lines[1..]| ==> lines[1..][k] == lines[k + 1];
  }

  /**
   * Between resets and undos, the balance is the starting balance plus the sales
   * minus the purchases, and each counter grows by the number of its trades.
   */
  lemma {:induction false} TradesAccumulate(s: State, lines: seq<string>)
    requires forall k :: 0 <= k < |lines| ==> IsTrade(lines[k])
    ensures !Run(s, lines).ended
    ensures Run(s, lines).state.current == Totals(
      s.current.balance + Net(lines),
      s.current.purchases + CountLeading(lines, "compra"),
      s.current.sales + CountLeading(lines, "venta"))
    decreases |lines|
  {
    if lines != [] {
      var line, rest := lines[0], lines[1..];
      var o := Step(s, line);
      var t := Tokens(line);
      var c := s.current;
      assert o.running && o.state.current == Totals(
          c.balance + TradeDelta(line),
          c.purchases + (if t[0] == "compra" then 1 else 0),
          c.sales + (if t[0] == "venta" then 1 else 0)) by {
        if t[0] == "compra" {
          StepPurchase(s, line, t[1]);
        } else {
          StepSale(s, line, t[1]);
        }
      }
      TradesTail(lines);
      TradesAccumulate(o.state, rest);
      RunStep(s, lines, o, Run(o.state, rest));
    }
  }

  /** The interpreter loop of `main`, over the lines the user would type. */
  method RunSession(lines: seq<string>) returns (final: State, outputs: seq<Output>, consumed: nat, ended: bool)
    ensures Run(Initial, lines) == Session(final, outputs, consumed, ended)
  {
    var encuentraFin := false;
    var contCompras: nat, contVentas: nat, saldo: real := 0, 0, 0.0;
    var ultimoSaldo: real, ultimoContCompras: nat, ultimoContVentas: nat := 0.0, 0, 0;
    outputs := [];
    var i := 0;
    while !encuentraFin && i < |lines|
      invariant 0 <= i <= |lines|
      invariant encuentraFin ==>
        Run(Initial, lines) == Session(State(Totals(saldo, contCompras, contVentas),
          Totals(ultimoSaldo, ultimoContCompras, ultimoContVentas)), outputs, i, true)
      invariant !encuentraFin ==>
        Run(Initial, lines) == After(outputs, i, Run(State(Totals(saldo, contCompras, contVentas),
          Totals(ultimoSaldo, ultimoContCompras, ultimoContVentas)), lines[i..]))
    {
      ghost var before := State(Totals(saldo, contCompras, contVentas),
        Totals(ultimoSaldo, ultimoContCompras, ultimoContVentas));
      var linea := Lower(lines[i]);
      var (comando, importe) := CommandAndAmount(linea);
      var importeValido := importe.Some? && CheckAmount(importe.value);
      var output := Nothing;
      if (comando == Some("compra") || comando == Some("venta")) && importeValido {
        ultimoSaldo, ultimoContCompras, ultimoContVentas := saldo, contCompras, contVentas;
        var valor := AmountValue(importe.value);
        if comando == Some("compra") {
          saldo := Purchase(saldo, valor);
          contCompras := contCompras + 1;
        } else if comando == Some("venta") {
          saldo := Sale(saldo, valor);
          contVentas := contVentas + 1;
        }
      } else if comando.Some? && comando.value in ["saldo", "reset", "deshacer", "limpiar", "fin"] && importe.None? {
        if comando.value == "saldo" {
          output := ShowBalance(Totals(saldo, contCompras, contVentas));
        } else if comando.value == "reset" {
          ultimoSaldo, ultimoContCompras, ultimoContVentas := saldo, contCompras, contVentas;
          var (zeros, shown) := ResetTotals(Totals(saldo, contCompras, contVentas));
          saldo, contCompras, contVentas := zeros.balance, zeros.purchases, zeros.sales;
          output := shown;
        } else if comando.value == "deshacer" {
          saldo, contCompras, contVentas := ultimoSaldo, ultimoContCompras, ultimoContVentas;
          output := Undone;
        } else if comando.value == "limpiar" {
          output := ClearScreen;
        } else {
          encuentraFin := true;
        }
      } else {
        output := InvalidEntry;
      }
      ghost var o := Step(before, lines[i]);
      assert State(Totals(saldo, contCompras, contVentas), Totals(ultimoSaldo, ultimoContCompras, ultimoContVentas)) == o.state;
      assert output == o.output && encuentraFin == !o.running;
      RunAdvance(before, lines, i, outputs);
      outputs := outputs + [output];
      i := i + 1;
    }
    final := State(Totals(saldo, contCompras, contVentas), Totals(ultimoSaldo, ultimoContCompras, ultimoContVentas));
    consumed, ended := i, encuentraFin;
    if !ended {
      assert lines[i..] == [];
      assert outputs + [] == outputs;
    }
  }

  /** Words free of upper-case letters, joined by spaces, are exactly the line's tokens. */
  lemma TokensOfJoin(ws: seq<string>)
    requires forall k :: 0 <= k < |ws| ==> IsWord(ws[k])
    requires forall k, i :: 0 <= k < |ws| && 0 <= i < |ws[k]| ==> !IsUpper(ws[k][i])
    ensures Tokens(JoinWords(ws)) == ws
  {
    LowerIdentity(ws);
    WordsOfJoin(ws);
  }

  lemma {:induction false} LowerIdentity(ws: seq<string>)
    requires forall k, i :: 0 <= k < |ws| && 0 <= i < |ws[k]| ==> !IsUpper(ws[k][i])
    ensures Lower(JoinWords(ws)) == JoinWords(ws)
  {
    var j := JoinWords(ws);
    NoUpperInJoin(ws);
    assert forall i :: 0 <= i < |j| ==> Lower(j)[i] == j[i];
  }

  lemma {:induction false} NoUpperInJoin(ws: seq<string>)
    requires forall k, i :: 0 <= k < |ws| && 0 <= i < |ws[k]| ==> !IsUpper(ws[k][i])
    ensures forall i :: 0 <= i < |JoinWords(ws)| ==> !IsUpper(JoinWords(ws)[i])
  {
    if |ws| > 1 {
      NoUpperInJoin(ws[1..]);
      var w, rest := ws[0], JoinWords(ws[1..]);
      forall i | 0 <= i < |w + " " + rest| ensures !IsUpper((w + " " + rest)[i]) {
        if i < |w| {
          assert (w + " " + rest)[i] == ws[0][i];
        } else if i > |w| {
          assert (w + " " + rest)[i] == rest[i - |w| - 1];
        }
      }
    } else if |ws| == 1 {
      assert forall i :: 0 <= i < |ws[0]| ==> !IsUpper(ws[0][i]);
    }
  }

  /** A line `word amount` with `amount` the rendering of `n`. */
  lemma TradeLine(word: string, n: nat, line: string)
    requires IsWord(word) && forall i :: 0 <= i < |word| ==> !IsUpper(word[i])
    requires line == word + " " + Decimal(n)
    ensures Tokens(line) == [word, Decimal(n)]
    ensures CheckAmount(Decimal(n)) && AmountValue(Decimal(n)) == n as real
  {
    var d := Decimal(n);
    assert [word, d][1..] == [d];
    assert JoinWords([word, d]) == line;
    TokensOfJoin([word, d]);
    DecimalAmount(n);
  }

  lemma PurchaseLine100()
    ensures Tokens("compra 100") == ["compra", "100"] && CheckAmount("100") && AmountValue("100") == 100.0
  {
    DecimalExamples();
    TradeLine("compra", 100, "compra 100");
  }

  lemma SaleLine50()
    ensures Tokens("venta 50") == ["venta", "50"] && CheckAmount("50") && AmountValue("50") == 50.0
  {
    DecimalExamples();
    TradeLine("venta", 50, "venta 50");
  }

  lemma SaleLine200()
    ensures Tokens("venta 200") == ["venta", "200"] && CheckAmount("200") && AmountValue("200") == 200.0
  {
    DecimalExamples();
    TradeLine("venta", 200, "venta 200");
  }

  lemma BareLine(word: string)
    requires IsWord(word) && forall i :: 0 <= i < |word| ==> !IsUpper(word[i])
    ensures IsBare(word, word)
  {
    TokensOfJoin([word]);
  }

  lemma BareLines()
    ensures IsBare("saldo", "saldo") && IsBare("reset", "reset") && IsBare("fin", "fin")
  {
    BareLine("saldo");
    BareLine("reset");
    BareLine("fin");
  }

  /** A run whose first line is a step that goes on. */
  lemma RunStep(s: State, lines: seq<string>, o: Outcome, rest: Session)
    requires |lines| > 0 && Step(s, lines[0]) == o && o.running && Run(o.state, lines[1..]) == rest
    ensures Run(s, lines) == After([o.output], 1, rest)
  {
  }

  /** A run whose first line stops it. */
  lemma RunLast(s: State, lines: seq<string>, o: Outcome)
    requires |lines| > 0 && Step(s, lines[0]) == o && !o.running
    ensures Run(s, lines) == Session(o.state, [o.output], 1, true)
  {
  }

  /**
   * A run over lines whose steps go from `states[i]` to `states[i + 1]` with
   * `outputs[i]`, the last of them `fin`, ends in the last state having
   * printed exactly those outputs.
   */
  lemma {:induction false} RunFollows(states: seq<State>, lines: seq<string>, outputs: seq<Output>)
    requires |lines| > 0 && |states| == |lines| + 1 && |outputs| == |lines|
    requires forall i :: 0 <= i < |lines| - 1 ==> Step(states[i], lines[i]) == Outcome(states[i + 1], outputs[i], true)
    requires Step(states[|lines| - 1], lines[|lines| - 1]) == Outcome(states[|lines|], outputs[|lines| - 1], false)
    ensures Run(states[0], lines) == Session(states[|lines|], outputs, |lines|, true)
    decreases |lines|
  {
    if |lines| == 1 {
      RunLast(states[0], lines, Outcome(states[1], outputs[0], false));
    } else {
      var rest := Run(states[1], lines[1..]);
      assert rest == Session(states[|lines|], outputs[1..], |lines| - 1, true) by {
        assert forall i :: 0 <= i < |lines| - 2 ==> states[1..][i] == states[i + 1] && lines[1..][i] == lines[i + 1];
        RunFollows(states[1..], lines[1..], outputs[1..]);
        assert states[1..][0] == states[1] && states[1..][|lines| - 1] == states[|lines|];
      }
      assert Run(states[0], lines) == After([outputs[0]], 1, rest) by {
        RunStep(states[0], lines, Outcome(states[1], outputs[0], true), rest);
      }
      assert outputs == [outputs[0]] + outputs[1..];
    }
  }

  /** The totals of the documented session after its first, second and third trade. */
  const FirstTotals := Totals(-100.0, 1, 0)
  const SecondTotals := Totals(-50.0, 1, 1)
  const ThirdTotals := Totals(150.0, 1, 2)

  /**
   * Lines that read as the commands of the documented session: two trades,
   * a balance query, a further sale, `reset`, a query and `fin`. The docstring
   * shows an empty prompt before the second query; the command there is taken
   * to be `saldo`.
   */
  predicate DocumentedShape(lines: seq<string>, a: string, b: string, c: string) {
    && |lines| == 7
    && Tokens(lines[0]) == ["compra", a] && CheckAmount(a) && AmountValue(a) == 100.0
    && Tokens(lines[1]) == ["venta", b] && CheckAmount(b) && AmountValue(b) == 50.0
    && IsBare(lines[2], "saldo") && IsBare(lines[5], "saldo")
    && Tokens(lines[3]) == ["venta", c] && CheckAmount(c) && AmountValue(c) == 200.0
    && IsBare(lines[4], "reset") && IsBare(lines[6], "fin")
  }

  /** The three trades of the documented session, one step each. */
  lemma DocumentedTradeSteps(lines: seq<string>, a: string, b: string, c: string)
    requires DocumentedShape(lines, a, b, c)
    ensures Step(Initial, lines[0]) == Outcome(State(FirstTotals, Zero), Nothing, true)
    ensures Step(State(FirstTotals, Zero), lines[1]) == Outcome(State(SecondTotals, FirstTotals), Nothing, true)
    ensures Step(State(SecondTotals, FirstTotals), lines[3]) == Outcome(State(ThirdTotals, SecondTotals), Nothing, true)
  {
    StepPurchase(Initial, lines[0], a);
    StepSale(State(FirstTotals, Zero), lines[1], b);
    StepSale(State(SecondTotals, FirstTotals), lines[3], c);
  }

  /** The queries, the reset and the `fin` of the documented session, one step each. */
  lemma DocumentedBareSteps(lines: seq<string>, a: string, b: string, c: string)
    requires DocumentedShape(lines, a, b, c)
    ensures Step(State(SecondTotals, FirstTotals), lines[2]) ==
      Outcome(State(SecondTotals, FirstTotals), ShowBalance(SecondTotals), true)
    ensures Step(State(ThirdTotals, SecondTotals), lines[4]) ==
      Outcome(State(Zero, ThirdTotals), ShowPrevious(ThirdTotals), true)
    ensures Step(State(Zero, ThirdTotals), lines[5]) == Outcome(State(Zero, ThirdTotals), ShowBalance(Zero), true)
    ensures Step(State(Zero, ThirdTotals), lines[6]) == Outcome(State(Zero, ThirdTotals), Nothing, false)
  {
    StepQuery(State(SecondTotals, FirstTotals), lines[2]);
    StepReset(State(ThirdTotals, SecondTotals), lines[4]);
    StepQuery(State(Zero, ThirdTotals), lines[5]);
    StepStops(State(Zero, ThirdTotals), lines[6]);
  }

  /** The state before each line of the documented session, and the state it ends in. */
  const DocumentedStates: seq<State> := [
    Initial, State(FirstTotals, Zero), State(SecondTotals, FirstTotals), State(SecondTotals, FirstTotals),
    State(ThirdTotals, SecondTotals), State(Zero, ThirdTotals), State(Zero, ThirdTotals), State(Zero, ThirdTotals)]

  /** What each line of the documented session prints. */
  const DocumentedOutputs: seq<Output> := [
    Nothing, Nothing, ShowBalance(SecondTotals), Nothing, ShowPrevious(ThirdTotals), ShowBalance(Zero), Nothing]

  /** Each trade line of the documented session goes from its state to the next. */
  lemma DocumentedTradeFollows(lines: seq<string>, a: string, b: string, c: string, i: int)
    requires DocumentedShape(lines, a, b, c) && (i == 0 || i == 1 || i == 3)
    ensures Step(DocumentedStates[i], lines[i]) == Outcome(DocumentedStates[i + 1], DocumentedOutputs[i], true)
  {
    DocumentedTradeSteps(lines, a, b, c);
    if i == 0 {
    } else if i == 1 {
    } else {
    }
  }

  /** Each query and the reset of the documented session go from their state to the next. */
  lemma DocumentedBareFollows(lines: seq<string>, a: string, b: string, c: string, i: int)
    requires DocumentedShape(lines, a, b, c) && (i == 2 || i == 4 || i == 5)
    ensures Step(DocumentedStates[i], lines[i]) == Outcome(DocumentedStates[i + 1], DocumentedOutputs[i], true)
  {
    DocumentedBareSteps(lines, a, b, c);
    if i == 2 {
    } else if i == 4 {
    } else {
    }
  }

  /** Every line of the documented session before `fin` goes from one of those states to the next. */
  lemma DocumentedFollows(lines: seq<string>, a: string, b: string, c: string)
    requires DocumentedShape(lines, a, b, c)
    ensures forall i :: 0 <= i < 6 ==>
      Step(DocumentedStates[i], lines[i]) == Outcome(DocumentedStates[i + 1], DocumentedOutputs[i], true)
  {
    forall i | 0 <= i < 6
      ensures Step(DocumentedStates[i], lines[i]) == Outcome(DocumentedStates[i + 1], DocumentedOutputs[i], true)
    {
      if i == 0 || i == 1 || i == 3 {
        DocumentedTradeFollows(lines, a, b, c, i);
      } else {
        DocumentedBareFollows(lines, a, b, c, i);
      }
    }
  }

  /**
   * The session from the documentation, for any lines that read as its
   * commands: two trades, a balance query showing -50.00 with one purchase and
   * one sale, a further sale, a reset announcing 150.00 with one purchase and
   * two sales, a query showing zeros, and `fin`.
   */
  lemma DocumentedSessionOf(lines: seq<string>, a: string, b: string, c: string)
    requires DocumentedShape(lines, a, b, c)
    ensures Run(Initial, lines) ==
      Session(State(Zero, ThirdTotals),
        [Nothing, Nothing, ShowBalance(SecondTotals), Nothing,
         ShowPrevious(ThirdTotals), ShowBalance(Zero), Nothing],
        7, true)
  {
    DocumentedFollows(lines, a, b, c);
    DocumentedBareSteps(lines, a, b, c);
    RunFollows(DocumentedStates, lines, DocumentedOutputs);
  }

  /**
   * The session of the documentation, line by line as it is typed. The
   * docstring shows an empty prompt before the second balance line; the
   * command there is taken to be `saldo`.
   */
  const DocumentedLines: seq<string> := ["compra 100", "venta 50", "saldo", "venta 200", "reset", "saldo", "fin"]

  /** The trade lines of the documented session, one lemma each. */
  lemma DocumentedPurchase(lines: seq<string>)
    requires lines == DocumentedLines
    ensures Tokens(lines[0]) == ["compra", "100"] && CheckAmount("100") && AmountValue("100") == 100.0
  {
    assert lines[0] == "compra 100";
    PurchaseLine100();
  }

  lemma DocumentedFirstSale(lines: seq<string>)
    requires lines == DocumentedLines
    ensures Tokens(lines[1]) == ["venta", "50"] && CheckAmount("50") && AmountValue("50") == 50.0
  {
    assert lines[1] == "venta 50";
    SaleLine50();
  }

  lemma DocumentedSecondSale(lines: seq<string>)
    requires lines == DocumentedLines
    ensures Tokens(lines[3]) == ["venta", "200"] && CheckAmount("200") && AmountValue("200") == 200.0
  {
    assert lines[3] == "venta 200";
    SaleLine200();
  }

  /** The single-word lines of the documented session. */
  lemma DocumentedBareLines(lines: seq<string>)
    requires lines == DocumentedLines
    ensures IsBare(lines[2], "saldo") && IsBare(lines[5], "saldo")
    ensures IsBare(lines[4], "reset") && IsBare(lines[6], "fin")
  {
    assert lines[2] == "saldo" && lines[5] == "saldo" && lines[4] == "reset" && lines[6] == "fin";
    BareLines();
  }

  lemma DocumentedSession(lines: seq<string>)
    requires lines == DocumentedLines
    ensures Run(Initial, lines) ==
      Session(State(Zero, Totals(150.0, 1, 2)),
        [Nothing, Nothing, ShowBalance(Totals(-50.0, 1, 1)), Nothing,
         ShowPrevious(Totals(150.0, 1, 2)), ShowBalance(Zero), Nothing],
        7, true)
  {
    assert DocumentedShape(lines, "100", "50", "200") by {
      DocumentedPurchase(lines);
      DocumentedFirstSale(lines);
      DocumentedSecondSale(lines);
      DocumentedBareLines(lines);
    }
    DocumentedSessionOf(lines, "100", "50", "200");
  }

  /** An empty or blank line has no command: it is refused and changes nothing. */
  lemma EmptyLineRejected(s: State, line: string)
    requires forall i :: 0 <= i < |line| ==> IsSpace(line[i])
    ensures Step(s, line) == Outcome(s, InvalidEntry, true)
  {
    WordsOfBlank(Lower(line));
  }

  /** A purchase without an amount, and a query with one, are both refused and change nothing. */
  lemma RejectedExamples(s: State)
    ensures Step(s, "compra") == Outcome(s, InvalidEntry, true)
    ensures Step(s, "saldo 10") == Outcome(s, InvalidEntry, true)
  {
    BareLine("compra");
    StepRejects(s, "compra");
    DecimalExamples();
    TradeLine("saldo", 10, "saldo 10");
    StepRejects(s, "saldo 10");
  }
}
