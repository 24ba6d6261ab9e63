/** Candidate::GetPriority of api/candidate.cc, whose shifts and ors are meant to
    be the sum of section 4.1.2.1 of RFC 5245. */
module CandidatePriority {
  import opened Common

  const MAX_TURN_SERVERS := 32

  function Pow2(k: nat): (r: nat)
    ensures r > 0
  {
    if k == 0 then 1 else 2 * Pow2(k - 1)
  }

  /** The `|` operator on non-negative integers, bit by bit. */
  function Or(a: nat, b: nat): nat
    decreases a + b
  {
    if a == 0 && b == 0 then 0
    else 2 * Or(a / 2, b / 2) + Max(a % 2, b % 2)
  }

  lemma {:induction false} OrZero(a: nat)
    ensures Or(a, 0) == a && Or(0, a) == a
  {
    if a != 0 {
      OrZero(a / 2);
    }
  }

  /** Bits that do not overlap: or is plus. */
  lemma {:induction false} OrOfDisjoint(a: nat, b: nat, k: nat, x: nat)
    requires b < Pow2(k) && x == a * Pow2(k)
    ensures Or(x, b) == x + b
    decreases k
  {
    if k == 0 {
      OrZero(a);
    } else {
      var q := Pow2(k - 1);
      DoubleProduct(a, Pow2(k), q);
      OrOfDisjoint(a, b / 2, k - 1, a * q);
      OrHalves(a * q, b);
    }
  }

  lemma OrHalves(h: nat, b: nat)
    ensures Or(2 * h, b) == 2 * Or(h, b / 2) + b % 2
  {
    if h == 0 && b == 0 {
    } else {
      assert 2 * h / 2 == h && 2 * h % 2 == 0;
    }
  }

  lemma OrDoubled(x: nat, y: nat)
    ensures Or(2 * x, 2 * y) == 2 * Or(x, y)
  {
    OrHalves(x, 2 * y);
    assert 2 * y / 2 == y && 2 * y % 2 == 0;
  }

  lemma OrOne(a: nat)
    ensures Or(a, 1) == a + (if a % 2 == 0 then 1 else 0)
  {
    OrZero(a / 2);
    assert Or(a, 1) == 2 * Or(a / 2, 0) + 1;
  }

  lemma DoubleProduct(a: nat, p: nat, q: nat)
    requires p == 2 * q
    ensures a * p == 2 * (a * q)
  {
  }

  /** The bit p = 2^k set in x, a multiple of 2^k. */
  lemma {:induction false} OrOfLowBit(a: nat, k: nat, p: nat, x: nat)
    requires p == Pow2(k) && x == a * p
    ensures Or(x, p) == x + (if a % 2 == 0 then p else 0)
    decreases k
  {
    if k == 0 {
      OrOne(a);
    } else {
      var q := Pow2(k - 1);
      DoubleProduct(a, p, q);
      OrOfLowBit(a, k - 1, q, a * q);
      OrDoubled(a * q, q);
    }
  }

  lemma PowersOfTwo()
    ensures Pow2(8) == 0x100 && Pow2(24) == 0x100_0000
  {
    assert Pow2(8) == 0x100;
    assert Pow2(16) == 0x1_0000;
  }

  /** Below: the three ways in which GetPriority joins its fields. */
  lemma OrIntoByte(a: nat, b: nat)
    requires b < 0x100
    ensures Or(a * 0x100, b) == a * 0x100 + b
  {
    PowersOfTwo();
    OrOfDisjoint(a, b, 8, a * 0x100);
  }

  lemma OrOverByte(a: nat)
    ensures Or(a * 0x100, 0x100) == a * 0x100 + (if a % 2 == 0 then 0x100 else 0)
  {
    PowersOfTwo();
    OrOfLowBit(a, 8, 0x100, a * 0x100);
  }

  lemma OrIntoThreeBytes(a: nat, b: nat)
    requires b < 0x100_0000
    ensures Or(a * 0x100_0000, b) == a * 0x100_0000 + b
  {
    PowersOfTwo();
    OrOfDisjoint(a, b, 24, a * 0x100_0000);
  }

  // ---------------------------------------------------------------- the code

  datatype Candidate = Candidate(component: int, relayProtocol: string, addressPrecedence: nat)

  /** The two bytes: `(NIC preference << 8 | address preference) + relay
      preference`, raised for non-relay candidates when adjusting. */
  function LocalPreference(c: Candidate, nic: nat, relay: nat, adjust: bool): nat {
    var local := Or(nic * 0x100, c.addressPrecedence) + relay;
    if adjust && c.relayProtocol == "" then local + MAX_TURN_SERVERS else local
  }

  /** What the code assumes of its arguments: preferences within their fields
      (the RTC_DCHECK on the local preference) and a component that the low byte
      can hold, plus the 0 that a default-constructed candidate carries. */
  ghost predicate InRange(c: Candidate, typePref: nat, nic: nat, relay: nat) {
    && typePref < 256
    && c.addressPrecedence < 256
    && nic * 0x100 + c.addressPrecedence + relay + MAX_TURN_SERVERS < 0x10000
    && 0 <= c.component <= 256
  }

  /** `(type << 24) | (local << 8) | low`, as an unsigned 32-bit value. */
  function Pack(typePref: nat, local: nat, low: nat): nat {
    Or(Or(typePref * 0x100_0000, local * 0x100), low) % 0x1_0000_0000
  }

  function GetPriority(c: Candidate, typePref: nat, nic: nat, relay: nat, adjust: bool): nat
    requires 0 <= c.component <= 256
  {
    Pack(typePref, LocalPreference(c, nic, relay, adjust), 256 - c.component)
  }

  function Rfc5245Priority(typePref: nat, localPref: nat, component: int): int {
    0x100_0000 * typePref + 0x100 * localPref + (256 - component)
  }

  lemma LocalPreferenceIsSum(c: Candidate, nic: nat, relay: nat, adjust: bool)
    requires c.addressPrecedence < 256
    ensures LocalPreference(c, nic, relay, adjust) ==
            256 * nic + c.addressPrecedence + relay
            + (if adjust && c.relayProtocol == "" then MAX_TURN_SERVERS else 0)
  {
    OrIntoByte(nic, c.addressPrecedence);
  }

  lemma SumFits(t: nat, l: nat, low: nat)
    requires t < 0x100 && l < 0x1_0000 && low <= 0x100 && (low == 0x100 ==> l % 2 == 0)
    ensures t * 0x100_0000 + l * 0x100 + low < 0x1_0000_0000
  {
  }

  lemma FitsIsKept(x: nat, y: nat)
    requires x == y < 0x1_0000_0000
    ensures x % 0x1_0000_0000 == y
  {
  }

  lemma SameParity(t: nat, l: nat)
    ensures (t * 0x1_0000 + l) % 2 == l % 2
  {
  }

  lemma OrOfFields(t: nat, l: nat, low: nat)
    requires l < 0x1_0000 && low <= 0x100
    ensures Or(Or(t * 0x100_0000, l * 0x100), low) ==
            t * 0x100_0000 + l * 0x100 + (if low == 0x100 && l % 2 == 1 then 0 else low)
  {
    var u := t * 0x1_0000 + l;
    OrIntoThreeBytes(t, l * 0x100);
    assert t * 0x100_0000 + l * 0x100 == u * 0x100;
    SameParity(t, l);
    if low == 0x100 {
      OrOverByte(u);
    } else {
      OrIntoByte(u, low);
    }
  }

  lemma PackIsSum(t: nat, l: nat, low: nat)
    requires t < 0x100 && l < 0x1_0000 && low <= 0x100
    ensures Pack(t, l, low) == t * 0x100_0000 + l * 0x100 + (if low == 0x100 && l % 2 == 1 then 0 else low)
  {
    OrOfFields(t, l, low);
    var kept := if low == 0x100 && l % 2 == 1 then 0 else low;
    SumFits(t, l, kept);
    FitsIsKept(Or(Or(t * 0x100_0000, l * 0x100), low), t * 0x100_0000 + l * 0x100 + kept);
  }

  lemma PackIsRfcSum(t: nat, l: nat, component: int)
    requires t < 0x100 && l < 0x1_0000 && 0 <= component <= 256
    ensures Pack(t, l, 256 - component) == Rfc5245Priority(t, l, component) <==> component != 0 || l % 2 == 0
  {
    PackIsSum(t, l, 256 - component);
  }

  /** The code computes the sum of the RFC, except for component 0 with an odd
      local preference: 256 then collides with the lowest bit of that field. */
  lemma PriorityIsRfcSum(c: Candidate, typePref: nat, nic: nat, relay: nat, adjust: bool)
    requires InRange(c, typePref, nic, relay)
    ensures var local := LocalPreference(c, nic, relay, adjust);
            GetPriority(c, typePref, nic, relay, adjust) == Rfc5245Priority(typePref, local, c.component)
            <==> c.component != 0 || local % 2 == 0
  {
    LocalPreferenceIsSum(c, nic, relay, adjust);
    PackIsRfcSum(typePref, LocalPreference(c, nic, relay, adjust), c.component);
  }

  /** A candidate of component 0 with local preference 1 gets 256, not 512. */
  lemma ComponentZeroCollides()
    ensures var c := Candidate(0, "", 1);
            && InRange(c, 0, 0, 0) && LocalPreference(c, 0, 0, false) == 1
            && GetPriority(c, 0, 0, 0, false) == 256 && Rfc5245Priority(0, 1, 0) == 512
  {
    var c := Candidate(0, "", 1);
    LocalPreferenceIsSum(c, 0, 0, false);
    PackIsSum(0, 1, 256);
  }

  lemma SumIsLexicographic(t: nat, l: nat, k: int, t': nat, l': nat, k': int)
    requires l < 0x1_0000 && l' < 0x1_0000 && 0 < k <= 256 && 0 < k' <= 256
    ensures Rfc5245Priority(t, l, k) < Rfc5245Priority(t', l', k')
            <==> t < t' || (t == t' && (l < l' || (l == l' && k > k')))
  {
  }

  /** Candidates are ordered by type, then local preference, then lower component. */
  lemma PriorityIsLexicographic(c: Candidate, t: nat, n: nat, r: nat, a: bool,
                                d: Candidate, t': nat, n': nat, r': nat, a': bool)
    requires InRange(c, t, n, r) && InRange(d, t', n', r') && c.component > 0 && d.component > 0
    ensures var l, l' := LocalPreference(c, n, r, a), LocalPreference(d, n', r', a');
            GetPriority(c, t, n, r, a) < GetPriority(d, t', n', r', a')
            <==> t < t' || (t == t' && (l < l' || (l == l' && c.component > d.component)))
  {
    PriorityIsRfcSum(c, t, n, r, a);
    PriorityIsRfcSum(d, t', n', r', a');
    LocalPreferenceIsSum(c, n, r, a);
    LocalPreferenceIsSum(d, n', r', a');
    SumIsLexicographic(t, LocalPreference(c, n, r, a), c.component, t', LocalPreference(d, n', r', a'), d.component);
  }

  // ------------------------------------------- the STUN PRIORITY attribute

  const PRFLX_PREFERENCE := 110

  /** Section 7.1.2.1 of RFC 5245: the peer-reflexive type preference over the
      low three bytes of the candidate's own priority. */
  function StunPriority(priority: nat): nat {
    Or(PRFLX_PREFERENCE * 0x100_0000, priority % 0x100_0000)
  }

  lemma StunPriorityIsSum(c: Candidate, t: nat, n: nat, r: nat, adjust: bool)
    requires InRange(c, t, n, r) && c.component > 0
    ensures StunPriority(GetPriority(c, t, n, r, adjust)) ==
            PRFLX_PREFERENCE * 0x100_0000 + 256 * LocalPreference(c, n, r, adjust) + (256 - c.component)
  {
    PriorityIsRfcSum(c, t, n, r, adjust);
    LocalPreferenceIsSum(c, n, r, adjust);
    StunOfSum(t, 256 * LocalPreference(c, n, r, adjust) + (256 - c.component));
  }

  lemma StunOfSum(t: nat, low: nat)
    requires low < 0x100_0000
    ensures StunPriority(t * 0x100_0000 + low) == PRFLX_PREFERENCE * 0x100_0000 + low
  {
    OrIntoThreeBytes(PRFLX_PREFERENCE, low);
  }

  /** With the adjustment, a relay candidate does not beat a non-relay one on the
      same adapter, address class and component exactly when its relay preference
      exceeds the other's by no more than the number of TURN servers allowed. */
  lemma RelayNeverBeatsDirect(relayed: Candidate, direct: Candidate,
                              t: nat, t': nat, nic: nat, relayPref: nat, directPref: nat)
    requires relayed.relayProtocol != "" && direct.relayProtocol == ""
    requires relayed.addressPrecedence == direct.addressPrecedence
    requires relayed.component == direct.component > 0
    requires InRange(relayed, t, nic, relayPref) && InRange(direct, t', nic, directPref)
    ensures StunPriority(GetPriority(relayed, t, nic, relayPref, true))
            <= StunPriority(GetPriority(direct, t', nic, directPref, true))
            <==> relayPref <= directPref + MAX_TURN_SERVERS
  {
    StunPriorityIsSum(relayed, t, nic, relayPref, true);
    StunPriorityIsSum(direct, t', nic, directPref, true);
    LocalPreferenceIsSum(relayed, nic, relayPref, true);
    LocalPreferenceIsSum(direct, nic, directPref, true);
  }
}
