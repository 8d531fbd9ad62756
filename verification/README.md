# Ledger interpreter and age prompts, modelled in Dafny

This project models three beginner Python scripts.

**The ledger interpreter** (`src/practicau2_1_bonus.py`) reads command lines
and keeps three values: a balance (`saldo`), a purchase counter
(`cont_compras`) and a sale counter (`cont_ventas`). It also keeps a one-slot
undo snapshot of those three values (`ultimo_*`). The commands are:

- `compra <importe>` subtracts the amount from the balance.
- `venta <importe>` adds the amount to the balance.
- `saldo` shows the balance and the counters.
- `reset` shows the old values and sets all three to zero.
- `deshacer` restores the snapshot.
- `limpiar` clears the screen.
- `fin` stops the loop.

Any other line prints `*ERROR* Entrada inválida` and changes nothing.

**The age prompts** (`src/ej23_1_dawb.py` and `src/ej23_1.py`) ask for an age
and check that it lies in 1..125. The checks run in order: negative, then
zero, then above 125. Each prompt then lists the years 1..age.

The modules are:

- `Wrappers`: `Option`, which stands for Python's `None`.
- `Text`: ASCII whitespace, `str.lower()`, `str.count()` for one character, and `str.split()` with no argument.
- `Digits`: `str.isdigit()`, the value of a digit string, and `str(n)`.
- `Amount`: `comprobar_importe`, and the exact number an accepted amount denotes.
- `Ledger`: the command vocabulary, `recuperar_comando_e_importe`, the state helpers, the dispatch step `Step`, the session fold `Run` and the imperative loop `RunSession`.
- `Ej231Dawb`: `src/ej23_1_dawb.py`.
- `Ej231`: `src/ej23_1.py`.

The dispatcher is the pure function `Ledger.Step(state, line)`. It returns
the new state, what the line prints and whether the loop goes on.
`Ledger.Run` folds `Step` over the input lines. `Ledger.RunSession` is the
`while not encuentra_fin` loop of `main`, written with the same six local
variables and the same branches. Its postcondition says that it computes
exactly `Run(Initial, lines)`.

The balance and amounts are exact `real` numbers. An accepted amount text
denotes its digits divided by 10 to the power of the number of digits after
the dot, negated when the text starts with `-`.

`resetear_saldo` is `Ledger.ResetTotals`. Its effect inside the loop is
stated by `Ledger.StepReset`. `procesar_compra` and `procesar_venta` are
`Ledger.Purchase` and `Ledger.Sale`; each undoes the other.

Three facts about the code:

- Across `reset` and `deshacer`, the balance is not the sum of sales minus
  the sum of purchases. `Ledger.TradesAccumulate` proves that equation for
  runs of trades, from any starting state.
- The undo snapshot starts at zero (`src/practicau2_1_bonus.py:198-200`), so a
  `deshacer` before any change restores zeros.
- The example session in the docstring of `main`
  (`src/practicau2_1_bonus.py:180-190`) shows an empty prompt at line 188
  followed by a balance line. The code answers an empty line with the error
  message (`Ledger.EmptyLineRejected`). The model takes the missing command
  at line 188 to be `saldo`.

## Model

| member | source | states |
|---|---|---|
| Text.Lower | src/practicau2_1_bonus.py:203 | `.lower()` keeps the length, turns each letter A–Z into its lower-case letter a–z and changes no other character |
| Text.Count | src/practicau2_1_bonus.py:33 | `count(c)` is at most the length, and zero exactly when c does not occur |
| Text.CountAppend | src/practicau2_1_bonus.py:33 | the count over a concatenation is the sum of the counts over its parts |
| Text.Words | src/practicau2_1_bonus.py:138 | `split()` yields only non-empty words that contain no whitespace |
| Text.WordsOfSeparated | src/practicau2_1_bonus.py:138 | any non-empty run of whitespace between two texts separates their words; leading and trailing whitespace add no words |
| Text.WordsOfJoin | src/practicau2_1_bonus.py:138 | splitting words joined by single spaces gives back exactly those words |
| Text.WordsOfBlank | src/practicau2_1_bonus.py:138 | a line of whitespace only has no words |
| Digits.Decimal | src/ej23_1.py:29-31 | `str(n)` is a non-empty digit string with no leading zero |
| Digits.ValueOfDecimal | src/ej23_1.py:29-31 | reading back `str(n)` as digits gives `n` |
| Amount.RemoveChar | src/practicau2_1_bonus.py:36 | `replace(".", "")` leaves no `.` and shortens the text by the number of dots |
| Amount.RemoveCharSingle | src/practicau2_1_bonus.py:36 | one character is dropped when it is `.` and kept otherwise |
| Amount.RemoveCharAppend | src/practicau2_1_bonus.py:36 | removal over a concatenation is the concatenation of the removals, so every other character is kept in order |
| Amount.CheckAmount | src/practicau2_1_bonus.py:20-37 | an accepted amount is neither empty nor a lone `-`, and has at most one `.` after the sign |
| Amount.CheckAmountIsLiteral | src/practicau2_1_bonus.py:20-37 | `comprobar_importe(v)` holds iff, after one optional `-`, v has only digits and at most one `.`, with at least one digit |
| Amount.CheckAmountAccepts | src/practicau2_1_bonus.py:33-37 | `5`, `5.`, `.5` and `100` are accepted |
| Amount.CheckAmountAcceptsSigned | src/practicau2_1_bonus.py:30-37 | `-5` and `-1.25` are accepted |
| Amount.CheckAmountRejects | src/practicau2_1_bonus.py:30-37 | empty, `-`, `.`, `-.`, `--5`, `+5`, `1.2.3` and `1e5` are rejected |
| Amount.TwoDotsRejected | src/practicau2_1_bonus.py:33-34 | two or more `.` after the sign always reject |
| Amount.AmountValue | src/practicau2_1_bonus.py:216 | `float(importe)` of an accepted amount is not positive with a leading `-` and not negative without one |
| Amount.IntegerAmount | src/practicau2_1_bonus.py:216 | a digit string is accepted and denotes its decimal value |
| Amount.FixedPointAmount | src/practicau2_1_bonus.py:216 | `ip.fp` is accepted and denotes ip + fp / 10^len(fp), for either part empty |
| Amount.NegatedAmount | src/practicau2_1_bonus.py:216 | a leading `-` on an accepted unsigned amount negates its value |
| Amount.DecimalAmount | src/practicau2_1_bonus.py:216 | the text `str(n)` is an amount worth exactly n |
| Ledger.IsCommand | src/practicau2_1_bonus.py:40-50 | `comprobar_comando(w)` iff w is the name of one of the seven commands |
| Ledger.ParseName | src/practicau2_1_bonus.py:4 | every command name in `COMANDOS` reads back as that command |
| Ledger.CommandAndAmount | src/practicau2_1_bonus.py:118-145 | a command exactly for one or two words, an amount exactly for two words, each being the corresponding word |
| Ledger.CommandAndAmountOfWords | src/practicau2_1_bonus.py:129-145 | one word gives (w, None), two give (w0, w1), three give (None, None), a blank line gives (None, None) |
| Ledger.Purchase | src/practicau2_1_bonus.py:60-71 | a sale of the same amount undoes a purchase; a positive amount lowers the balance |
| Ledger.Sale | src/practicau2_1_bonus.py:74-85 | a positive amount raises the balance and a negative one lowers it |
| Ledger.SaleThenPurchase | src/practicau2_1_bonus.py:60-85 | a purchase of the same amount undoes a sale |
| Ledger.Step | src/practicau2_1_bonus.py:202-261 | one iteration: stopping and refusing a line change no state; the snapshot is either kept or replaced by the totals from before the line |
| Ledger.StepIgnoresCase | src/practicau2_1_bonus.py:203 | a line is handled exactly like its lower-case form |
| Ledger.UpperCaseExample | src/practicau2_1_bonus.py:203 | `COMPRA 100` is handled exactly like `compra 100` |
| Ledger.StepPurchase | src/practicau2_1_bonus.py:208-220 | `compra a` with a valid amount snapshots the old totals, lowers the balance by a's value and adds one purchase only |
| Ledger.StepSale | src/practicau2_1_bonus.py:208-224 | `venta a` with a valid amount snapshots the old totals, raises the balance by a's value and adds one sale only |
| Ledger.StepReset | src/practicau2_1_bonus.py:231-244 | `reset` snapshots the old totals, then `resetear_saldo` shows them as "Saldo anterior" and zeroes balance and counters |
| Ledger.StepUndo | src/practicau2_1_bonus.py:246-252 | `deshacer` makes the totals equal to the snapshot and leaves the snapshot unchanged |
| Ledger.StepQuery | src/practicau2_1_bonus.py:228-255 | `saldo` shows the current totals and `limpiar` clears the screen; neither changes any state |
| Ledger.StepStops | src/practicau2_1_bonus.py:257-258 | the loop stops iff the line is a bare `fin`, which changes nothing |
| Ledger.StepRejects | src/practicau2_1_bonus.py:206-261 | the error is printed iff the line is neither a valid trade nor a bare query/reset/undo/clear/fin; then nothing changes |
| Ledger.AcceptedStartsWithCommand | src/practicau2_1_bonus.py:4 | every accepted line starts with a word of `COMANDOS` |
| Ledger.StepSnapshot | src/practicau2_1_bonus.py:208-247 | the snapshot changes only on a trade or a reset, and then it holds the totals from before the line |
| Ledger.UndoTwice | src/practicau2_1_bonus.py:246-252 | two `deshacer` in a row have the same effect as one |
| Ledger.UndoRestores | src/practicau2_1_bonus.py:208-252 | `deshacer` right after a trade or a reset restores exactly the totals from before it |
| Ledger.Run | src/practicau2_1_bonus.py:202-261 | a session reads at most all lines, records one output event per line read (`Nothing` for trades and `fin`), and reads every line unless it ended |
| Ledger.RunStopsAtFirstFin | src/practicau2_1_bonus.py:202-258 | a session ends iff some line is a bare `fin`, and it stops right after the first one |
| Ledger.TradesAccumulate | src/practicau2_1_bonus.py:208-224 | over trade lines, the balance moves by sales minus purchases and each counter by its number of trades |
| Ledger.RunSession | src/practicau2_1_bonus.py:192-261 | the imperative loop of `main` ends in exactly the state, outputs, line count and end flag of the fold of `Step` |
| Ledger.RunFollows | src/practicau2_1_bonus.py:192-261 | when each line takes the loop from one given state to the next with a given output, and the last line is `fin`, the session ends in the last state having printed exactly those outputs |
| Ledger.TokensOfJoin | src/practicau2_1_bonus.py:203-204 | a line typed as lower-case words separated by single spaces reads as those words |
| Ledger.DocumentedSessionOf | src/practicau2_1_bonus.py:180-190 | any lines that read as compra 100, venta 50, saldo, venta 200, reset, saldo, fin show −50.00 (1, 1), then 150.00 (1, 2) as the old totals, then zeros, and end; the docstring leaves the command at line 188 out, and the model takes it to be `saldo` |
| Ledger.DocumentedSession | src/practicau2_1_bonus.py:180-190 | the typed lines of that session, with `saldo` in place of the empty prompt at line 188, give exactly those outputs and that final state |
| Ledger.EmptyLineRejected | src/practicau2_1_bonus.py:144-145 | an empty line has no command, so it prints the error and changes nothing |
| Ledger.PurchaseLine100 | src/practicau2_1_bonus.py:181 | the line `compra 100` reads as a purchase of exactly 100 |
| Ledger.RejectedExamples | src/practicau2_1_bonus.py:226-261 | `compra` without an amount and `saldo 10` are refused and change nothing |
| Ej231Dawb.ValidateAge | src/ej23_1_dawb.py:14-20 | accepted iff 1 ≤ age ≤ 125; otherwise exactly one of negative (age < 0), zero (age = 0), above 125 (age > 125) |
| Ej231Dawb.Prompt | src/ej23_1_dawb.py:23-37 | a returned age lies in 1..125; no more complaints than inputs |
| Ej231Dawb.PromptFindsFirstInRange | src/ej23_1_dawb.py:23-37 | the prompt returns the first input that is an integer in 1..125, after one complaint per earlier input, and returns nothing iff there is none; complaint k is "not a number" for a non-integer input k and the validator's reason for a rejected integer |
| Ej231Dawb.PromptMessages | src/ej23_1_dawb.py:30-35 | the k-th error line printed is the "no es válido" text for a non-integer input k, and "*ERROR* " + the validator's message + ". Inténtalo de nuevo!" for a rejected integer |
| Ej231Dawb.ReadAge | src/ej23_1_dawb.py:23-37 | the retry loop, which resets `edad` after a rejection, returns exactly what the prompt specification gives |
| Ej231Dawb.ShowYears | src/ej23_1_dawb.py:40-42 | the years printed are 1, 2, …, age in order: age values, or none when age < 1 |
| Ej231.ValidateAge | src/ej23_1.py:2-8 | accepted iff 1 ≤ age ≤ 125; otherwise exactly one of negative, zero, above 125 |
| Ej231.Prompt | src/ej23_1.py:11-23 | the prompt as written returns nothing exactly when no input is an integer, and otherwise one of the inputs |
| Ej231.PromptReturnsFirstInteger | src/ej23_1.py:11-23 | the prompt returns the first integer input, in range or not, after one complaint per earlier non-integer, plus one if it failed the check |
| Ej231.PromptMessages | src/ej23_1.py:17-21 | one "no es un entero válido" line per leading non-integer, then, if the first integer failed the check, "*ERROR* " + the validator's message + ". Inténtalo de nuevo." |
| Ej231.RejectedAgeEscapes | src/ej23_1.py:13-21 | 200, −3 and 0 are returned although the check rejects them |
| Ej231.ReadAge | src/ej23_1.py:11-23 | the loop as written, without a reset after a rejection, returns exactly what the prompt specification gives |
| Ej231.RetryingPrompt | src/ej23_1.py:11-23 | corrected prompt: a returned age lies in 1..125, and nothing is returned only when no input is in range |
| Ej231.RetryingPromptIsDawbPrompt | src/ej23_1.py:11-23 | the corrected prompt returns exactly what the resetting loop of ej23_1_dawb.py returns |
| Ej231.RetryingPromptFindsFirst | src/ej23_1.py:11-23 | the corrected prompt returns the first input in range |
| Ej231.YearsText | src/ej23_1.py:26-31 | the listing is empty exactly when age < 1, and otherwise starts with 1 and ends with the newline |
| Ej231.ShowYears | src/ej23_1.py:26-31 | the loop prints exactly the years text: "1, 2, …, age" and a newline |
| Ej231.YearsTextShape | src/ej23_1.py:26-31 | nothing for age < 1; otherwise age − 1 separators, with the last number age followed by the newline and not by ", " |
| Ej231.YearsTextExample | src/ej23_1.py:26-31 | age 3 prints "1, 2, 3" and a newline |

## Findings

| source | as written | input that shows it | evidently intended | confidence | as-written member | corrected member |
|---|---|---|---|---|---|---|
| src/ej23_1.py:13-21 | after `validar_edad` raises, `edad` still holds the rejected integer, so `while edad is None` ends and that integer is returned | the input 200 is returned, and `main` then lists 1..200; −3 and 0 are returned too | ask again until an age in 1..125 is typed, as the error text "Inténtalo de nuevo" says and as `src/ej23_1_dawb.py:34` does by resetting `edad` | high; not executed | Ej231.RejectedAgeEscapes | Ej231.RetryingPrompt |

## Left out

- Console I/O. The `> ` prompt and `input()` become a sequence of lines. What a line prints becomes an `Output` event.
- `limpiar_pantalla`. It runs `cls` or `clear` through `os.system`, so it is left out. `limpiar` is modelled as a `ClearScreen` event that changes no state.
- The `{:.2f}` rendering of balances. `mostrar_saldo` and the "Saldo anterior" line of `resetear_saldo` become `ShowBalance` and `ShowPrevious` events carrying the totals.
- `mostrar_mensaje_error` becomes the `InvalidEntry` event.
- Binary floating point. `float(importe)` and the balance arithmetic are exact `real` numbers, so rounding errors are not modelled.
- `.strip()` at line 203 is not modelled separately. `split()` with no argument already ignores leading and trailing whitespace, as `Text.WordsOfSeparated` shows.
- Unicode behaviour. Whitespace is ASCII only: space, code points 9 to 13, and 28 to 31. Case folding in `lower()` is ASCII only. `isdigit()` accepts only `0` to `9`.
- `guardar_valores` is the identity on a triple. It appears as the copy of a `Totals` value into the snapshot, inside `Step` and `RunSession`.
- Running out of input. Python raises `EOFError`. The model ends the session with `ended == false`, and `ReadAge` returns `None`.
- Python's `int()` parsing in `pedir_edad`. Each input is given already parsed, as `Option<int>`.
- The exception mechanism of `validar_edad`. It returns `Option<AgeError>` instead.
- The `main` functions of the two age scripts. `src/ej23_1.py:34-37` calls `pedir_edad`, prints the heading "Has cumplido los siguientes años:" and calls `mostrar_anios_cumplidos`. `src/ej23_1_dawb.py:45-48` calls `pedir_edad` and lists the years only when the age is not `None`.
- `src/pruebas1.py` (a Fahrenheit to Celsius conversion in floating point) is not part of this model.
