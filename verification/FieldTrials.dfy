/** The field-trial string parser of api/field_trials.cc.

    A field-trial string is a concatenation of `key/value/` groups.  The parser
    is stated against `Print`, the printer of a list of pairs, which the source
    does not contain: a string is accepted exactly when it is some printed list. */
module FieldTrials {
  import opened Common

  type Pair = (string, string)

  /** The RTC_CHECKs of the parser; a failed check aborts the process. */
  datatype CheckFailure =
    | MissingKeySeparator
    | EmptyKey
    | MissingValue
    | MissingTerminator
    | EmptyValue

  datatype ParseResult = Parsed(trials: map<string, string>) | Aborted(why: CheckFailure)

  ghost predicate IsField(s: string) {
    s != "" && '/' !in s
  }

  ghost predicate WellFormed(ps: seq<Pair>) {
    forall i | 0 <= i < |ps| :: IsField(ps[i].0) && IsField(ps[i].1)
  }

  ghost function Printed(p: Pair): string { p.0 + "/" + p.1 + "/" }

  ghost function Print(ps: seq<Pair>): string {
    if ps == [] then "" else Printed(ps[0]) + Print(ps[1..])
  }

  /** The map in which the first occurrence of a key decides its value. */
  ghost function FirstWins(ps: seq<Pair>): map<string, string> {
    if ps == [] then map[] else FirstWins(ps[1..])[ps[0].0 := ps[0].1]
  }

  ghost predicate PrintedAs(ps: seq<Pair>, s: string) {
    WellFormed(ps) && Print(ps) == s
  }

  ghost predicate Accepts(s: string) {
    exists ps :: PrintedAs(ps, s)
  }

  ghost function Reading(s: string): (ps: seq<Pair>)
    requires Accepts(s)
    ensures PrintedAs(ps, s)
  {
    var ps :| PrintedAs(ps, s);
    ps
  }

  ghost function Meaning(s: string): map<string, string>
    requires Accepts(s)
  {
    FirstWins(Reading(s))
  }

  /** `rest` is `a`, a separator, and `b`, cut at the first separator. */
  ghost predicate Splits(rest: string, a: string, b: string) {
    '/' !in a && rest == a + "/" + b
  }

  /** What is left of the input when a check fails, for each check. */
  ghost predicate Explains(rest: string, why: CheckFailure) {
    match why
    case MissingKeySeparator => IsField(rest)
    case EmptyKey => "/" <= rest
    case MissingValue => exists k :: IsField(k) && Splits(rest, k, "")
    case MissingTerminator => exists k, v :: IsField(k) && IsField(v) && Splits(rest, k, v)
    case EmptyValue => exists k, t :: IsField(k) && "/" <= t && Splits(rest, k, t)
  }

  /** std::string::find for the separator. */
  function FindSlash(s: string, from: nat): (r: Option<nat>)
    requires from <= |s|
    ensures r.None? ==> '/' !in s[from..]
    ensures r.Some? ==> from <= r.value < |s| && s[r.value] == '/' && '/' !in s[from..r.value]
    decreases |s| - from
  {
    if from == |s| then None
    else if s[from] == '/' then Some(from)
    else
      var r := FindSlash(s, from + 1);
      assert s[from..] == [s[from]] + s[from + 1..];
      assert r.Some? ==> s[from..r.value] == [s[from]] + s[from + 1..r.value];
      r
  }

  // ---------------------------------------------------------------- printing

  lemma Associative(a: string, b: string, c: string)
    ensures a + (b + c) == (a + b) + c
  {
  }

  lemma {:induction false} PrintConcat(ps: seq<Pair>, qs: seq<Pair>)
    ensures Print(ps + qs) == Print(ps) + Print(qs)
  {
    if ps == [] {
      assert ps + qs == qs;
    } else {
      PrintConcat(ps[1..], qs);
      assert (ps + qs)[1..] == ps[1..] + qs;
      Associative(Printed(ps[0]), Print(ps[1..]), Print(qs));
    }
  }

  lemma PrintSnoc(ps: seq<Pair>, k: string, v: string)
    ensures Print(ps + [(k, v)]) == Print(ps) + (k + "/" + v + "/")
  {
    PrintConcat(ps, [(k, v)]);
    assert [(k, v)][1..] == [];
  }

  lemma FirstWinsSnoc(ps: seq<Pair>, k: string, v: string)
    ensures FirstWins(ps + [(k, v)]) ==
            if k in FirstWins(ps) then FirstWins(ps) else FirstWins(ps)[k := v]
  {
    FirstWinsConcat(ps, [(k, v)]);
    assert FirstWins([(k, v)]) == map[k := v];
  }

  /** The first separator cuts a text in one way only. */
  lemma SplitsUnique(s: string, a: string, x: string, b: string, y: string)
    requires Splits(s, a, x) && Splits(s, b, y)
    ensures a == b && x == y
  {
    assert s[|a|] == '/' && s[|b|] == '/';
    assert forall i | 0 <= i < |a| :: s[i] == a[i];
    assert forall i | 0 <= i < |b| :: s[i] == b[i];
    assert |a| == |b|;
    assert a == s[..|a|] && b == s[..|b|];
    assert x == s[|a| + 1..] && y == s[|b| + 1..];
  }

  /** Splits the text of a non-empty list into its first pair and the rest. */
  lemma PrintCons(ps: seq<Pair>)
    requires ps != []
    ensures Print(ps) == ps[0].0 + "/" + (ps[0].1 + "/" + Print(ps[1..]))
  {
  }

  /** If one printed text continues another, so does the list of pairs. */
  lemma {:induction false} PrintPrefix(ps: seq<Pair>, qs: seq<Pair>, rest: string)
    requires WellFormed(ps) && WellFormed(qs)
    requires Print(ps) + rest == Print(qs)
    ensures ps <= qs && Print(qs[|ps|..]) == rest
  {
    if ps == [] {
      assert qs[0..] == qs;
      assert "" + rest == rest;
    } else {
      PrintCons(ps);
      if qs == [] {
        assert false;
      } else {
        PrintCons(qs);
        var p, q := ps[0], qs[0];
        var x, y := Print(ps[1..]) + rest, Print(qs[1..]);
        assert Print(ps) + rest == p.0 + "/" + (p.1 + "/" + x);
        SplitsUnique(Print(qs), p.0, p.1 + "/" + x, q.0, q.1 + "/" + y);
        SplitsUnique(q.1 + "/" + y, p.1, x, q.1, y);
        PrintPrefix(ps[1..], qs[1..], rest);
        assert qs[1..][|ps[1..]|..] == qs[|ps|..];
      }
    }
  }

  /** Printing is injective on well-formed lists: a string has one reading. */
  lemma PrintInjective(ps: seq<Pair>, qs: seq<Pair>)
    requires WellFormed(ps) && WellFormed(qs) && Print(ps) == Print(qs)
    ensures ps == qs
  {
    assert Print(ps) + "" == Print(qs) && Print(qs) + "" == Print(ps);
    PrintPrefix(ps, qs, "");
    PrintPrefix(qs, ps, "");
  }

  lemma {:induction false} FirstWinsConcat(ps: seq<Pair>, qs: seq<Pair>)
    ensures FirstWins(ps + qs) == FirstWins(qs) + FirstWins(ps)
  {
    if ps == [] {
      assert ps + qs == qs;
    } else {
      FirstWinsConcat(ps[1..], qs);
      assert (ps + qs)[1..] == ps[1..] + qs;
    }
  }

  // ---------------------------------------------------------------- laws

  /** Parsing undoes printing, up to the first occurrence of a key winning. */
  lemma RoundTrip(ps: seq<Pair>)
    requires WellFormed(ps)
    ensures Accepts(Print(ps)) && Meaning(Print(ps)) == FirstWins(ps)
  {
    assert PrintedAs(ps, Print(ps));
    PrintInjective(ps, Reading(Print(ps)));
  }

  /** Concatenating accepted strings overrides the second by the first, and a
      string can only be completed to an accepted one by an accepted one. */
  lemma ConcatLaw(s: string, t: string)
    requires Accepts(s)
    ensures Accepts(s + t) <==> Accepts(t)
    ensures Accepts(t) ==> Meaning(s + t) == Meaning(t) + Meaning(s)
  {
    var ps :| PrintedAs(ps, s);
    RoundTrip(ps);
    if Accepts(t) {
      var qs :| PrintedAs(qs, t);
      RoundTrip(qs);
      PrintConcat(ps, qs);
      RoundTrip(ps + qs);
      FirstWinsConcat(ps, qs);
    }
    if Accepts(s + t) {
      var rs :| PrintedAs(rs, s + t);
      PrintPrefix(ps, rs, t);
      assert PrintedAs(rs[|ps|..], t);
    }
  }

  /** A remainder that fails a check does not complete a printed list. */
  lemma AcceptedIsUnexplained(ps: seq<Pair>, rest: string, why: CheckFailure)
    requires WellFormed(ps) && Accepts(Print(ps) + rest)
    ensures !Explains(rest, why)
  {
    var qs := Reading(Print(ps) + rest);
    PrintPrefix(ps, qs, rest);
    var tail := qs[|ps|..];
    if tail != [] {
      PrintCons(tail);
      GroupIsUnexplained(tail[0].0, tail[0].1, Print(tail[1..]), why);
    }
  }

  lemma GroupIsUnexplained(k: string, v: string, u: string, why: CheckFailure)
    requires IsField(k) && IsField(v)
    ensures !Explains(k + "/" + (v + "/" + u), why)
  {
    var value := v + "/" + u;
    var rest := k + "/" + value;
    assert rest[0] == k[0] && rest[|k|] == '/' && value[0] == v[0] && value[|v|] == '/';
    forall a, b | Splits(rest, a, b) ensures a == k && b == value {
      SplitsUnique(rest, k, value, a, b);
    }
  }

  // ---------------------------------------------------------------- the parser

  lemma Reject(s: string, ps: seq<Pair>, rest: string, why: CheckFailure)
    requires WellFormed(ps) && s == Print(ps) + rest && Explains(rest, why)
    ensures !Accepts(s) && StuckAt(s, why)
  {
    if Accepts(s) {
      AcceptedIsUnexplained(ps, rest, why);
    }
    assert s[|Print(ps)|..] == rest;
  }

  /** After some well-formed groups, what remains of the input fails the check. */
  ghost predicate StuckAt(s: string, why: CheckFailure) {
    exists ps :: WellFormed(ps) && Print(ps) <= s && Explains(s[|Print(ps)|..], why)
  }

  datatype Group = Group(key: string, value: string, next: nat) | Failed(why: CheckFailure)

  /** One iteration of the parser's loop: the group that starts at `fieldStart`. */
  method ReadGroup(s: string, fieldStart: nat) returns (g: Group)
    requires fieldStart < |s|
    ensures g.Group? ==> fieldStart < g.next <= |s| && IsField(g.key) && IsField(g.value)
    ensures g.Group? ==> s[fieldStart..] == g.key + "/" + g.value + "/" + s[g.next..]
    ensures g.Failed? ==> Explains(s[fieldStart..], g.why)
  {
    ghost var rest := s[fieldStart..];
    var keyEnd := FindSlash(s, fieldStart);
    if keyEnd.None? {
      return Failed(MissingKeySeparator);
    }
    if keyEnd.value == fieldStart {
      return Failed(EmptyKey);
    }
    var key := s[fieldStart..keyEnd.value];
    var valueStart := keyEnd.value + 1;
    assert Splits(rest, key, s[valueStart..]);
    if valueStart >= |s| {
      assert Splits(rest, key, "");
      return Failed(MissingValue);
    }
    var valueEnd := FindSlash(s, valueStart);
    if valueEnd.None? {
      assert IsField(s[valueStart..]);
      return Failed(MissingTerminator);
    }
    if valueEnd.value == valueStart {
      assert "/" <= s[valueStart..];
      return Failed(EmptyValue);
    }
    var value := s[valueStart..valueEnd.value];
    assert s[valueStart..] == value + "/" + s[valueEnd.value + 1..];
    return Group(key, value, valueEnd.value + 1);
  }

  ghost predicate ReadUpTo(s: string, ps: seq<Pair>, from: nat) {
    from <= |s| && WellFormed(ps) && s == Print(ps) + s[from..]
  }

  lemma Advance(s: string, ps: seq<Pair>, from: nat, g: Group)
    requires ReadUpTo(s, ps, from) && g.Group? && g.next <= |s|
    requires IsField(g.key) && IsField(g.value)
    requires s[from..] == g.key + "/" + g.value + "/" + s[g.next..]
    ensures ReadUpTo(s, ps + [(g.key, g.value)], g.next)
  {
    PrintSnoc(ps, g.key, g.value);
  }

  /** InsertIntoMap: accepts exactly the printed lists, and names the check that
      failed together with what was left of the input at that point. */
  method InsertIntoMap(s: string) returns (r: ParseResult)
    ensures r.Parsed? <==> Accepts(s)
    ensures r.Parsed? ==> r.trials == Meaning(s)
    ensures r.Aborted? ==> StuckAt(s, r.why)
  {
    var fieldStart := 0;
    var trials := map[];
    ghost var ps: seq<Pair> := [];
    while fieldStart < |s|
      invariant fieldStart <= |s|
      invariant ReadUpTo(s, ps, fieldStart)
      invariant trials == FirstWins(ps)
    {
      var g := ReadGroup(s, fieldStart);
      if g.Failed? {
        Reject(s, ps, s[fieldStart..], g.why);
        return Aborted(g.why);
      }
      Advance(s, ps, fieldStart, g);
      FirstWinsSnoc(ps, g.key, g.value);
      fieldStart := g.next;
      if g.key !in trials {
        trials := trials[g.key := g.value];
      }
      ps := ps + [(g.key, g.value)];
    }
    assert s == Print(ps);
    RoundTrip(ps);
    return Parsed(trials);
  }

  /** GetValue of an instance that does not consult the global string: the value
      of the first pair with that key, or the empty string. */
  function GetValue(trials: map<string, string>, key: string): string {
    if key in trials then trials[key] else ""
  }

  lemma {:induction false} GetValueIsFirstMatch(ps: seq<Pair>, i: nat, key: string)
    requires i <= |ps| && (forall j | 0 <= j < i :: ps[j].0 != key)
    requires i == |ps| || ps[i].0 == key
    ensures GetValue(FirstWins(ps), key) == if i == |ps| then "" else ps[i].1
  {
    if i != 0 {
      assert forall j | 0 <= j < i - 1 :: ps[1..][j] == ps[j + 1];
      GetValueIsFirstMatch(ps[1..], i - 1, key);
    }
  }
}
