/** A model of the Bulls-and-Cows game store: secret generation from a
    caller-supplied stream of random digits, guess validation, scoring,
    the guess history with per-turn timing, and the per-digit annotation
    scratchpad. */
module NumberGame {

  datatype Option<T> = None | Some(value: T)

  /** A decimal digit, the value `Math.floor(Math.random() * 10)` can take. */
  type Digit = d: int | 0 <= d <= 9

  /** A decimal digit character. */
  predicate IsDigitChar(c: char) {
    '0' <= c <= '9'
  }

  /** The character that `join('')` writes for a digit. */
  function DigitChar(d: Digit): (c: char)
    ensures IsDigitChar(c)
    ensures c as int - '0' as int == d
  {
    ('0' as int + d) as char
  }

  predicate Distinct<T(==)>(s: seq<T>) {
    forall i, j :: 0 <= i < j < |s| ==> s[i] != s[j]
  }

  /** The characters of a string, as a JavaScript `new Set(s)` collects them. */
  function CharSet(s: string): set<char> {
    set c | c in s
  }

  /** The shape every secret has: four distinct decimal digits, the first not '0'. */
  predicate ValidSecret(s: string) {
    |s| == 4 && s[0] != '0' && Distinct(s) &&
    forall i :: 0 <= i < |s| ==> IsDigitChar(s[i])
  }

  // ---------------------------------------------------------------------
  // Secret generation (rejection sampling)
  // ---------------------------------------------------------------------

  /** A draw is thrown away when it would lead with 0 or repeat a digit. */
  predicate Rejects(digits: seq<Digit>, d: Digit) {
    (|digits| == 0 && d == 0) || d in digits
  }

  /** What the accepted digits look like at any point of the loop. */
  predicate ValidPrefix(digits: seq<Digit>) {
    |digits| <= 4 && Distinct(digits) && (|digits| > 0 ==> digits[0] != 0)
  }

  /** The digits the sampling loop holds once it has consumed `draws`,
      starting from `digits`; it stops consuming at four digits. */
  function Collect(digits: seq<Digit>, draws: seq<Digit>): seq<Digit>
    decreases |draws|
  {
    if |digits| >= 4 || |draws| == 0 then digits
    else if Rejects(digits, draws[0]) then Collect(digits, draws[1..])
    else Collect(digits + [draws[0]], draws[1..])
  }

  function Join(digits: seq<Digit>): string {
    seq(|digits|, i requires 0 <= i < |digits| => DigitChar(digits[i]))
  }

  /** The secret produced from a stream of draws, or None when the stream
      ends before four digits were accepted. */
  function Generate(draws: seq<Digit>): Option<string> {
    var digits := Collect([], draws);
    if |digits| == 4 then Some(Join(digits)) else None
  }

  lemma {:induction false} CollectKeepsShape(digits: seq<Digit>, draws: seq<Digit>)
    requires ValidPrefix(digits)
    ensures ValidPrefix(Collect(digits, draws))
    ensures digits <= Collect(digits, draws)
    ensures |draws| == 0 ==> Collect(digits, draws) == digits
    decreases |draws|
  {
    if |digits| >= 4 || |draws| == 0 {
    } else if Rejects(digits, draws[0]) {
      CollectKeepsShape(digits, draws[1..]);
    } else {
      var next := digits + [draws[0]];
      assert ValidPrefix(next) by {
        forall i, j | 0 <= i < j < |next| ensures next[i] != next[j] {
          if j == |digits| {
            assert next[i] == digits[i];
          }
        }
      }
      CollectKeepsShape(next, draws[1..]);
    }
  }

  lemma JoinValid(digits: seq<Digit>)
    requires ValidPrefix(digits) && |digits| == 4
    ensures ValidSecret(Join(digits))
  {
    var s := Join(digits);
    forall i, j | 0 <= i < j < |s| ensures s[i] != s[j] {
      assert s[i] as int - '0' as int == digits[i];
      assert s[j] as int - '0' as int == digits[j];
    }
    assert s[0] as int - '0' as int == digits[0];
  }

  /** Whatever the draws, a secret that comes out has the secret shape. */
  lemma GenerateValid(draws: seq<Digit>)
    ensures Generate(draws).Some? ==> ValidSecret(Generate(draws).value)
  {
    CollectKeepsShape([], draws);
    var digits := Collect([], draws);
    if |digits| == 4 {
      JoinValid(digits);
    }
  }

  function CharDigit(c: char): Digit
    requires IsDigitChar(c)
  {
    c as int - '0' as int
  }

  /** The draws that spell out a secret digit by digit. */
  function DrawsOf(s: string): (draws: seq<Digit>)
    requires ValidSecret(s)
  {
    seq(4, i requires 0 <= i < 4 => CharDigit(s[i]))
  }

  lemma {:induction false} CollectAcceptsValid(digits: seq<Digit>, rest: seq<Digit>)
    requires ValidPrefix(digits + rest)
    ensures Collect(digits, rest) == digits + rest
    decreases |rest|
  {
    if |rest| == 0 {
      assert digits + rest == digits;
    } else {
      var all := digits + rest;
      assert |digits| < 4;
      assert !Rejects(digits, rest[0]) by {
        assert all[|digits|] == rest[0];
        forall k | 0 <= k < |digits| ensures digits[k] != rest[0] {
          assert all[k] == digits[k];
        }
      }
      assert (digits + [rest[0]]) + rest[1..] == all;
      CollectAcceptsValid(digits + [rest[0]], rest[1..]);
    }
  }

  /** Every secret of the right shape can come out of the generator: the
      sampling loop rejects nothing but leading zeros and repetitions. */
  lemma GenerateReachesEverySecret(s: string)
    requires ValidSecret(s)
    ensures Generate(DrawsOf(s)) == Some(s)
  {
    var draws := DrawsOf(s);
    assert ValidPrefix(draws) by {
      forall i, j | 0 <= i < j < 4 ensures draws[i] != draws[j] {
        assert s[i] != s[j];
      }
      assert s[0] != '0';
    }
    assert [] + draws == draws;
    CollectAcceptsValid([], draws);
    assert Join(draws) == s;
  }

  /** The rejection-sampling loop of generateTargetNumber; draw number i of
      the stream stands for the i-th call of the random-number generator. */
  method GenerateTargetNumber(draws: seq<Digit>) returns (target: Option<string>)
    ensures target == Generate(draws)
    ensures target.Some? ==> ValidSecret(target.value)
  {
    var digits: seq<Digit> := [];
    var i := 0;
    while |digits| < 4 && i < |draws|
      invariant 0 <= i <= |draws|
      invariant |digits| <= 4
      invariant Collect(digits, draws[i..]) == Collect([], draws)
    {
      var randomDigit := draws[i];
      assert draws[i..][1..] == draws[i + 1..];
      i := i + 1;
      if (|digits| == 0 && randomDigit == 0) || randomDigit in digits {
        continue;
      }
      digits := digits + [randomDigit];
    }
    assert Collect(digits, draws[i..]) == digits;
    if |digits| == 4 {
      target := Some(Join(digits));
    } else {
      target := None;
    }
    GenerateValid(draws);
  }

  // ---------------------------------------------------------------------
  // Guess validation
  // ---------------------------------------------------------------------

  lemma CharSetCons(s: string)
    requires |s| > 0
    ensures CharSet(s) == {s[0]} + CharSet(s[1..])
  {
    assert s == [s[0]] + s[1..];
  }

  /** A non-empty sequence is distinct exactly when its head does not occur
      in its tail and its tail is distinct. */
  lemma DistinctCons<T>(s: seq<T>)
    requires |s| > 0
    ensures Distinct(s) <==> s[0] !in s[1..] && Distinct(s[1..])
  {
    var t := s[1..];
    if s[0] in t {
      var k :| 0 <= k < |t| && t[k] == s[0];
      assert s[0] == s[k + 1];
    } else if Distinct(t) {
      forall i, j | 0 <= i < j < |s| ensures s[i] != s[j] {
        assert s[j] == t[j - 1];
        if i > 0 {
          assert s[i] == t[i - 1];
        }
      }
    } else {
      var i, j :| 0 <= i < j < |t| && t[i] == t[j];
      assert s[i + 1] == s[j + 1];
    }
  }

  /** A string has as many distinct characters as it has positions exactly
      when no character repeats. */
  lemma {:induction false} DistinctIffCharSetFull(s: string)
    ensures |CharSet(s)| <= |s|
    ensures |CharSet(s)| == |s| <==> Distinct(s)
  {
    if |s| == 0 {
      assert CharSet(s) == {};
    } else {
      var t := s[1..];
      DistinctIffCharSetFull(t);
      CharSetCons(s);
      DistinctCons(s);
      if s[0] in t {
        assert CharSet(s) == CharSet(t);
      } else {
        assert |CharSet(s)| == 1 + |CharSet(t)|;
      }
    }
  }

  /** isValidGuess: length four, no leading '0', and a set of its
      characters of size four. */
  function IsValidGuess(guess: string): (valid: bool)
    ensures valid <==> |guess| == 4 && guess[0] != '0' && Distinct(guess)
  {
    if |guess| != 4 || guess[0] == '0' then false
    else
      (DistinctIffCharSetFull(guess); |CharSet(guess)| == 4)
  }

  /** A secret is itself a guess the game accepts. */
  lemma SecretIsValidGuess(s: string)
    requires ValidSecret(s)
    ensures IsValidGuess(s)
  {
  }

  // ---------------------------------------------------------------------
  // Scoring
  // ---------------------------------------------------------------------

  /** correctDigit counts cows (right digit, wrong place), correctPosition
      counts bulls (right digit, right place). */
  datatype Score = Score(correctDigit: nat, correctPosition: nat)

  /** correctPosition after the loop has looked at positions 0 .. k-1. */
  function CountPositions(guess: string, target: string, k: nat): nat
    requires k <= |guess| && k <= |target|
  {
    if k == 0 then 0
    else CountPositions(guess, target, k - 1) + (if guess[k - 1] == target[k - 1] then 1 else 0)
  }

  /** correctDigit after the loop has looked at positions 0 .. k-1. */
  function CountDigits(guess: string, target: string, k: nat): nat
    requires k <= |guess| && k <= |target|
  {
    if k == 0 then 0
    else
      var cow := guess[k - 1] != target[k - 1] && guess[k - 1] in target;
      CountDigits(guess, target, k - 1) + (if cow then 1 else 0)
  }

  /** Each position increments at most one of the two counters. */
  lemma {:induction false} CountsBounded(guess: string, target: string, k: nat)
    requires k <= |guess| && k <= |target|
    ensures CountPositions(guess, target, k) + CountDigits(guess, target, k) <= k
  {
    if k > 0 {
      CountsBounded(guess, target, k - 1);
    }
  }

  /** The score of a four-character guess against a four-character target. */
  function ScoreOf(target: string, guess: string): (s: Score)
    requires |target| == 4 && |guess| == 4
    ensures s.correctDigit + s.correctPosition <= 4
  {
    CountsBounded(guess, target, 4);
    Score(CountDigits(guess, target, 4), CountPositions(guess, target, 4))
  }

  lemma {:induction false} SelfCounts(s: string, k: nat)
    requires k <= |s|
    ensures CountPositions(s, s, k) == k && CountDigits(s, s, k) == 0
  {
    if k > 0 {
      SelfCounts(s, k - 1);
    }
  }

  /** Guessing the target exactly scores four bulls and no cows, `-0 +4`. */
  lemma ExactGuessScoresFour(target: string)
    requires |target| == 4
    ensures ScoreOf(target, target) == Score(0, 4)
    ensures Evaluate(target, target) == "-0 +4"
  {
    SelfCounts(target, 4);
  }

  /** correctPosition is the number of indices where guess and target agree. */
  lemma {:induction false} PositionsAreMatches(guess: string, target: string, k: nat)
    requires k <= |guess| && k <= |target|
    ensures CountPositions(guess, target, k) == |set i | 0 <= i < k && guess[i] == target[i]|
  {
    if k > 0 {
      PositionsAreMatches(guess, target, k - 1);
      var before := set i | 0 <= i < k - 1 && guess[i] == target[i];
      var now := set i | 0 <= i < k && guess[i] == target[i];
      if guess[k - 1] == target[k - 1] {
        assert now == before + {k - 1};
      } else {
        assert now == before;
      }
    }
  }

  /** correctDigit is the number of non-matching positions whose guessed
      digit occurs somewhere in the target. */
  lemma {:induction false} DigitsAreMisplacedHits(guess: string, target: string, k: nat)
    requires k <= |guess| && k <= |target|
    ensures CountDigits(guess, target, k) ==
            |set i | 0 <= i < k && guess[i] != target[i] && guess[i] in target|
  {
    if k > 0 {
      DigitsAreMisplacedHits(guess, target, k - 1);
      var before := set i | 0 <= i < k - 1 && guess[i] != target[i] && guess[i] in target;
      var now := set i | 0 <= i < k && guess[i] != target[i] && guess[i] in target;
      if guess[k - 1] != target[k - 1] && guess[k - 1] in target {
        assert now == before + {k - 1};
      } else {
        assert now == before;
      }
    }
  }

  /** Position k-1 adds one to exactly one counter when its digit occurs
      in the target, and to neither otherwise. */
  lemma HitStep(guess: string, target: string, k: nat)
    requires 0 < k <= |guess| && k <= |target|
    ensures CountPositions(guess, target, k) + CountDigits(guess, target, k) ==
            CountPositions(guess, target, k - 1) + CountDigits(guess, target, k - 1) +
            (if guess[k - 1] in target then 1 else 0)
  {
    if guess[k - 1] == target[k - 1] {
      assert guess[k - 1] in target;
    }
  }

  lemma SharedStep(seen: set<char>, c: char, other: set<char>)
    requires c !in seen
    ensures |(seen + {c}) * other| == |seen * other| + (if c in other then 1 else 0)
  {
    if c in other {
      assert (seen + {c}) * other == seen * other + {c};
    } else {
      assert (seen + {c}) * other == seen * other;
    }
  }

  lemma {:induction false} HitsAreCommonDigits(guess: string, target: string, k: nat)
    requires k <= |guess| && k <= |target|
    requires Distinct(guess)
    ensures CountPositions(guess, target, k) + CountDigits(guess, target, k) ==
            |CharSet(guess[..k]) * CharSet(target)|
  {
    if k == 0 {
      assert CharSet(guess[..0]) == {};
    } else {
      HitsAreCommonDigits(guess, target, k - 1);
      HitStep(guess, target, k);
      var pre, c := guess[..k - 1], guess[k - 1];
      assert CharSet(guess[..k]) == CharSet(pre) + {c} by {
        assert guess[..k] == pre + [c];
      }
      assert c !in CharSet(pre) by {
        forall j | 0 <= j < |pre| ensures pre[j] != c {
          assert pre[j] == guess[j];
        }
      }
      SharedStep(CharSet(pre), c, CharSet(target));
    }
  }

  /** For a guess without repeated digits the single pass agrees with the
      set-based Bulls-and-Cows count: bulls plus cows is the number of
      digits guess and target share. */
  lemma CanonicalBullsAndCows(target: string, guess: string)
    requires |target| == 4 && |guess| == 4 && Distinct(guess)
    ensures ScoreOf(target, guess).correctDigit + ScoreOf(target, guess).correctPosition ==
            |CharSet(guess) * CharSet(target)|
  {
    HitsAreCommonDigits(guess, target, 4);
    assert guess[..4] == guess;
  }

  /** The single pass is only right for guesses without repeats: a repeated
      digit that occurs once in the target is counted as a cow again at
      every other position. */
  lemma RepeatedDigitsOvercount()
    ensures ScoreOf("1234", "1111") == Score(3, 1)
    ensures |CharSet("1111") * CharSet("1234")| == 1
  {
    assert CharSet("1111") == {'1'};
    assert CharSet("1111") * CharSet("1234") == {'1'};
  }

  /** Reads back a result of the form `-{correctDigit} +{correctPosition}`. */
  function ParseScore(r: string): Option<Score> {
    if |r| == 5 && r[0] == '-' && IsDigitChar(r[1]) && r[2] == ' ' && r[3] == '+' && IsDigitChar(r[4])
    then Some(Score(CharDigit(r[1]), CharDigit(r[4])))
    else None
  }

  /** The result string `-{correctDigit} +{correctPosition}`. */
  function FormatScore(s: Score): (r: string)
    requires s.correctDigit <= 9 && s.correctPosition <= 9
    ensures ParseScore(r) == Some(s)
  {
    "-" + [DigitChar(s.correctDigit)] + " +" + [DigitChar(s.correctPosition)]
  }

  /** evaluateGuess as a function of the target and the guess. */
  function Evaluate(target: string, guess: string): string
    requires |target| == 4 && |guess| == 4
  {
    FormatScore(ScoreOf(target, guess))
  }

  lemma ScoreExamples()
    ensures Evaluate("1234", "1234") == "-0 +4"
    ensures Evaluate("1234", "4321") == "-4 +0"
    ensures Evaluate("1234", "1243") == "-2 +2"
    ensures Evaluate("1234", "5678") == "-0 +0"
  {
    ExactGuessScoresFour("1234");
  }

  // ---------------------------------------------------------------------
  // Digit annotations
  // ---------------------------------------------------------------------

  /** Array.prototype.indexOf: the first index holding x, or -1. */
  function IndexOf<T(==)>(s: seq<T>, x: T): (r: int)
    ensures -1 <= r < |s|
    ensures r == -1 <==> x !in s
    ensures r >= 0 ==> s[r] == x
  {
    if |s| == 0 then -1
    else if s[0] == x then 0
    else
      var k := IndexOf(s[1..], x);
      if k == -1 then -1 else k + 1
  }

  /** indexOf finds the first occurrence: x occurs nowhere before the index. */
  lemma {:induction false} IndexOfIsFirst<T>(s: seq<T>, x: T)
    requires x in s
    ensures x !in s[..IndexOf(s, x)]
  {
    if s[0] != x {
      IndexOfIsFirst(s[1..], x);
      assert s[..IndexOf(s, x)] == [s[0]] + s[1..][..IndexOf(s[1..], x)];
    }
  }

  /** One step along a cycle of names: the name after x, wrapping at the
      end; a name that is not in the cycle has index -1 and so steps to the
      first name. */
  function Advance<T(==)>(names: seq<T>, x: T): T
    requires |names| > 0
  {
    var next := IndexOf(names, x) + 1;
    names[if next == |names| then 0 else next]
  }

  /** The wrap-around is the remainder the source takes,
      `names[(names.indexOf(x) + 1) % names.length]`. */
  lemma AdvanceIsModulo<T>(names: seq<T>, x: T)
    requires |names| == 4
    ensures Advance(names, x) == names[(IndexOf(names, x) + 1) % |names|]
  {
    var next := IndexOf(names, x) + 1;
    assert 0 <= next <= 4;
    if next == 4 {
      assert next % 4 == 0;
    } else {
      assert next % 4 == next;
    }
  }

  /** n steps along a cycle of names. */
  function AdvanceN<T(==)>(names: seq<T>, x: T, n: nat): T
    requires |names| > 0
  {
    if n == 0 then x else Advance(names, AdvanceN(names, x, n - 1))
  }

  /** The successor of a position in a four-name cycle. */
  function Succ(k: nat): nat {
    if k == 3 then 0 else k + 1
  }

  /** In a cycle of four distinct names, a step moves a name to the next
      position, wrapping from the last to the first. */
  lemma AdvanceFromPosition<T>(names: seq<T>, k: nat)
    requires |names| == 4 && Distinct(names) && k < 4
    ensures Advance(names, names[k]) == names[Succ(k)]
  {
    var r := IndexOf(names, names[k]);
    assert names[r] == names[k];
  }

  /** A name outside the cycle has index -1, so a step moves it to the first name. */
  lemma AdvanceFromOutside<T>(names: seq<T>, x: T)
    requires |names| > 0 && x !in names
    ensures Advance(names, x) == names[0]
  {
  }

  /** Four steps bring every name of a four-name cycle back to itself. */
  lemma FourStepsRestore<T>(names: seq<T>, x: T)
    requires |names| == 4 && Distinct(names) && x in names
    ensures AdvanceN(names, x, 4) == x
  {
    var k := IndexOf(names, x);
    AdvanceFromPosition(names, k);
    AdvanceFromPosition(names, Succ(k));
    AdvanceFromPosition(names, Succ(Succ(k)));
    AdvanceFromPosition(names, Succ(Succ(Succ(k))));
    assert AdvanceN(names, x, 1) == names[Succ(k)];
    assert AdvanceN(names, x, 2) == names[Succ(Succ(k))];
    assert AdvanceN(names, x, 3) == names[Succ(Succ(Succ(k)))];
    assert Succ(Succ(Succ(Succ(k)))) == k;
  }

  /** A name that four steps bring back keeps coming back every four steps. */
  lemma {:induction false} StepsPeriodic<T>(names: seq<T>, x: T, n: nat)
    requires |names| > 0 && AdvanceN(names, x, 4) == x
    ensures AdvanceN(names, x, n + 4) == AdvanceN(names, x, n)
  {
    if n > 0 {
      StepsPeriodic(names, x, n - 1);
      assert AdvanceN(names, x, n + 4) == Advance(names, AdvanceN(names, x, n + 3));
    }
  }

  /** A name outside the cycle enters it at the first name and from then
      on moves as the first name does. */
  lemma {:induction false} OutsideJoinsCycle<T>(names: seq<T>, x: T, n: nat)
    requires |names| > 0 && x !in names
    ensures AdvanceN(names, x, n + 1) == AdvanceN(names, names[0], n)
  {
    if n > 0 {
      OutsideJoinsCycle(names, x, n - 1);
      assert AdvanceN(names, x, n + 1) == Advance(names, AdvanceN(names, x, n));
    }
  }

  /** The annotation cycle, in order. */
  const States: seq<string> := ["unknown", "inKnown", "inUnknown", "notIn"]

  lemma StatesDistinct()
    ensures |States| == 4 && Distinct(States)
  {
    assert States[0][0] != States[1][0] && States[0][0] != States[2][0] && States[0][0] != States[3][0];
    assert |States[1]| != |States[2]| && |States[1]| != |States[3]| && |States[2]| != |States[3]|;
  }

  /** The state a toggle moves a digit to. */
  function NextState(state: string): string {
    Advance(States, state)
  }

  /** The state after n toggles. */
  function Toggles(state: string, n: nat): string {
    AdvanceN(States, state, n)
  }

  /** The cycle unknown -> inKnown -> inUnknown -> notIn -> unknown. */
  lemma StateCycle()
    ensures NextState("unknown") == "inKnown"
    ensures NextState("inKnown") == "inUnknown"
    ensures NextState("inUnknown") == "notIn"
    ensures NextState("notIn") == "unknown"
  {
    StatesDistinct();
    AdvanceFromPosition(States, 0);
    AdvanceFromPosition(States, 1);
    AdvanceFromPosition(States, 2);
    AdvanceFromPosition(States, 3);
  }

  /** Four consecutive toggles restore an annotation, and toggling is
      periodic with period four. */
  lemma TogglesPeriodic(state: string, n: nat)
    requires state in States
    ensures NextState(NextState(NextState(NextState(state)))) == state
    ensures Toggles(state, n + 4) == Toggles(state, n)
  {
    StatesDistinct();
    FourStepsRestore(States, state);
    assert Toggles(state, 4) == NextState(NextState(NextState(NextState(state))));
    StepsPeriodic(States, state, n);
  }

  /** A name outside the cycle becomes "unknown" on the first toggle and
      then follows the cycle. */
  lemma UnlistedStateJoinsCycle(state: string, n: nat)
    requires state !in States
    ensures NextState(state) == "unknown"
    ensures Toggles(state, n + 1) == Toggles("unknown", n)
  {
    AdvanceFromOutside(States, state);
    OutsideJoinsCycle(States, state, n);
  }

  // ---------------------------------------------------------------------
  // The game store
  // ---------------------------------------------------------------------

  /** One history entry; timeSpent is the elapsed clock time in the unit
      of the supplied clock. */
  datatype GuessRecord = GuessRecord(guess: string, result: string, timeSpent: int)

  /** The status message: empty, the summary of an accepted guess, or the
      invalid-guess notice. */
  datatype Message = NoMessage | Reported(guess: string, result: string) | InvalidGuessNotice

  /** A history entry is an accepted guess with its score against the target. */
  predicate RecordedFor(target: string, entry: GuessRecord) {
    IsValidGuess(entry.guess) && |target| == 4 && entry.result == Evaluate(target, entry.guess)
  }

  class GameStore {
    var targetNumber: string
    var guesses: seq<GuessRecord>
    var message: Message
    var digitStates: array<string>
    var startTime: int

    ghost predicate Valid()
      reads this, digitStates
    {
      ValidSecret(targetNumber) &&
      digitStates.Length == 10 &&
      (forall d :: 0 <= d < 10 ==> digitStates[d] in States) &&
      (forall k :: 0 <= k < |guesses| ==> RecordedFor(targetNumber, guesses[k]))
    }

    /** A new session: a secret from the draws, an empty history, an empty
        message, every digit "unknown", and the turn clock started at now. */
    constructor (draws: seq<Digit>, now: int)
      requires Generate(draws).Some?
      ensures Valid() && fresh(digitStates)
      ensures Generate(draws) == Some(targetNumber)
      ensures guesses == [] && message == NoMessage && startTime == now
      ensures digitStates[..] == seq(10, _ => "unknown")
    {
      var target := GenerateTargetNumber(draws);
      targetNumber := target.value;
      guesses := [];
      message := NoMessage;
      digitStates := new string[10](_ => "unknown");
      startTime := now;
    }

    /** evaluateGuess: one pass over the four positions, a bull on an exact
        match, otherwise a cow when the digit occurs in the target. */
    method EvaluateGuess(guess: string) returns (result: string)
      requires Valid() && |guess| == 4
      ensures result == Evaluate(targetNumber, guess)
      ensures ParseScore(result) == Some(ScoreOf(targetNumber, guess))
    {
      var correctPosition := 0;
      var correctDigit := 0;
      for i := 0 to 4
        invariant correctPosition == CountPositions(guess, targetNumber, i)
        invariant correctDigit == CountDigits(guess, targetNumber, i)
      {
        if guess[i] == targetNumber[i] {
          correctPosition := correctPosition + 1;
        } else if guess[i] in targetNumber {
          correctDigit := correctDigit + 1;
        }
      }
      CountsBounded(guess, targetNumber, 4);
      result := FormatScore(Score(correctDigit, correctPosition));
    }

    /** addGuess: an accepted guess is scored and put at the head of the
        history, and the turn clock restarts; a rejected guess only sets
        the invalid-guess notice. */
    method AddGuess(guess: string, currentTime: int)
      requires Valid()
      modifies this`guesses, this`message, this`startTime
      ensures Valid()
      ensures IsValidGuess(guess) ==>
        var result := Evaluate(targetNumber, guess);
        guesses == [GuessRecord(guess, result, currentTime - old(startTime))] + old(guesses) &&
        message == Reported(guess, result) &&
        startTime == currentTime
      ensures !IsValidGuess(guess) ==>
        guesses == old(guesses) && startTime == old(startTime) && message == InvalidGuessNotice
    {
      if IsValidGuess(guess) {
        var result := EvaluateGuess(guess);
        var timeSpent := currentTime - startTime;
        guesses := [GuessRecord(guess, result, timeSpent)] + guesses;
        message := Reported(guess, result);
        startTime := currentTime;
      } else {
        message := InvalidGuessNotice;
      }
    }

    /** toggleDigitState: advance one digit's annotation along the cycle. */
    method ToggleDigitState(digit: int)
      requires Valid() && 0 <= digit < 10
      modifies digitStates
      ensures Valid()
      ensures digitStates[digit] == NextState(old(digitStates[digit]))
      ensures forall d :: 0 <= d < 10 && d != digit ==> digitStates[d] == old(digitStates[d])
    {
      var currentStateIndex := IndexOf(States, digitStates[digit]);
      AdvanceIsModulo(States, digitStates[digit]);
      digitStates[digit] := States[(currentStateIndex + 1) % |States|];
    }
  }

  /** Four toggles of one digit leave every annotation as it was. */
  method ToggleFourTimes(store: GameStore, digit: int)
    requires store.Valid() && 0 <= digit < 10
    modifies store.digitStates
    ensures store.Valid()
    ensures forall d :: 0 <= d < 10 ==> store.digitStates[d] == old(store.digitStates[d])
  {
    ghost var before := store.digitStates[digit];
    TogglesPeriodic(before, 0);
    store.ToggleDigitState(digit);
    store.ToggleDigitState(digit);
    store.ToggleDigitState(digit);
    store.ToggleDigitState(digit);
    assert store.digitStates[digit] == before;
  }

  /** A client run: history is most recent first, and rejected guesses in
      between neither grow the history nor restart the turn clock. */
  method HistoryScenario(store: GameStore)
    requires store.Valid() && store.guesses == [] && store.startTime == 100
    modifies store`guesses, store`message, store`startTime
    ensures store.Valid() && store.startTime == 200
    ensures |store.guesses| == 2
    ensures store.guesses[0].guess == "5678" && store.guesses[1].guess == "1234"
    ensures store.guesses[0].result == Evaluate(store.targetNumber, "5678")
    ensures store.guesses[1].result == Evaluate(store.targetNumber, "1234")
    ensures store.guesses[0].timeSpent == 50 && store.guesses[1].timeSpent == 50
    ensures store.message == Reported("5678", Evaluate(store.targetNumber, "5678"))
  {
    assert IsValidGuess("1234") && IsValidGuess("5678");
    assert !IsValidGuess("0123");
    assert !IsValidGuess("1123") by {
      assert "1123"[0] == "1123"[1];
    }
    store.AddGuess("1234", 150);
    store.AddGuess("0123", 170);
    store.AddGuess("1123", 180);
    assert |store.guesses| == 1 && store.startTime == 150;
    store.AddGuess("5678", 200);
  }
}
