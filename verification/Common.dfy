/** Small vocabulary shared by the models of the audio and api components. */
module Common {

  datatype Option<+T> = None | Some(value: T)

  function Min(a: int, b: int): int { if a < b then a else b }

  function Max(a: int, b: int): int { if a < b then b else a }

  lemma HasMember(s: set<int>)
    ensures s == {} || exists k :: k in s
  {
    if forall k :: k !in s {
      assert s == {};
    }
  }

  lemma {:induction false} Nonnegative(a: nat, d: nat)
    ensures a * d >= 0
  {
  }

  lemma NonpositiveFactor(e: int, d: nat)
    requires e <= 0
    ensures e * d <= 0
  {
    Nonnegative(-e, d);
    assert e * d == -((-e) * d);
  }

  lemma FactorMonotone(a: int, b: int, d: nat)
    requires a <= b
    ensures a * d <= b * d
  {
    NonpositiveFactor(a - b, d);
    assert (a - b) * d == a * d - b * d;
  }

  lemma QuotientBounds(x: nat, d: int)
    requires 0 < d
    ensures x / d * d <= x < (x / d + 1) * d
  {
    assert (x / d + 1) * d == x / d * d + d;
  }

  lemma DivUnique(w: int, d: int, q: int, r: int)
    requires d > 0 && 0 <= r < d && w == q * d + r
    ensures w / d == q
  {
    var e := w / d - q;
    assert e * d == r - w % d;
    if e != 0 {
      NonzeroMultiple(e, d);
    }
  }

  lemma NonzeroMultiple(e: int, d: int)
    requires e != 0 && d > 0
    ensures e * d >= d || e * d <= -d
  {
    if e >= 1 {
      Nonnegative(e - 1, d);
      assert e * d == (e - 1) * d + d;
    } else {
      Nonnegative(-e - 1, d);
      assert e * d == -((-e - 1) * d) - d;
    }
  }
}
