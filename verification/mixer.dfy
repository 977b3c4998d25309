/** Volume scaling, stream tags and control selection (controls.go). */
module Mixer {
  import opened Wrappers
  import opened Bytes
  import opened Messages

  const CONTROL_TYPE_BOOLEAN: u32 := 1
  const CONTROL_TYPE_INTEGER: u32 := 2

  // ---------------------------------------------------------------------------
  // Volume
  // ---------------------------------------------------------------------------

  /** uint32 subtraction, and the int32 conversion and sum, which wrap. */
  function Sub32(x: u32, y: u32): u32 {
    if x >= y then x - y else x - y + 0x1_0000_0000
  }

  function ToInt32(x: nat): int32 {
    Signed(Wrap32(x))
  }

  function Add32(v: int32, w: int32): int32 {
    ToInt32(Unsigned(v) + Unsigned(w))
  }

  /** percent hundredths of a span, rounded down. */
  function Scaled(span: nat, percent: nat): (d: nat) {
    span * percent / 100
  }

  /** Rounded down to a whole hundredth. */
  lemma ScaledIs(span: nat, percent: nat)
    ensures 100 * Scaled(span, percent) <= span * percent < 100 * Scaled(span, percent) + 100
  {
    var x := span * percent;
    assert x == 100 * (x / 100) + x % 100;
  }

  lemma ScaledBounds(span: nat, p: nat, q: nat)
    requires p <= q <= 100
    ensures Scaled(span, p) <= Scaled(span, q) <= span
    ensures Scaled(span, 0) == 0 && Scaled(span, 100) == span
  {
    assert span * p <= span * q <= span * 100;
  }

  /** SetVolume's scaling of `percent` into a control's range. */
  function VolumeValue(min: u32, max: u32, percent: nat): int32 {
    Add32(Signed(min), ToInt32(Scaled(Sub32(max, min), percent)))
  }

  /**
   For a control whose range is ordered as signed words, the wrapped arithmetic is exact: the
   value lies percent hundredths of the way, rounded down, from min to max.
   */
  lemma VolumeExact(min: u32, max: u32, percent: nat)
    requires Signed(min) <= Signed(max) && percent <= 100
    ensures var d, span := VolumeValue(min, max, percent) - Signed(min), Signed(max) - Signed(min);
            100 * d <= span * percent < 100 * d + 100
    ensures VolumeValue(min, max, percent) == Signed(min) + Scaled(Signed(max) - Signed(min), percent)
    ensures Signed(min) <= VolumeValue(min, max, percent) <= Signed(max)
    ensures VolumeValue(min, max, 0) == Signed(min) && VolumeValue(min, max, 100) == Signed(max)
  {
    hide Scaled;
    var span := Signed(max) - Signed(min);
    assert Sub32(max, min) == span;
    ScaledBounds(span, percent, 100);
    ScaledIs(span, percent);
    SumExact(min, Scaled(span, percent), max);
    SumExact(min, 0, max);
    SumExact(min, span, max);
  }

  lemma SumExact(min: u32, d: nat, max: u32)
    requires d <= Signed(max) - Signed(min)
    ensures Add32(Signed(min), ToInt32(d)) == Signed(min) + d
  {
    assert Unsigned(ToInt32(d)) == d;
    assert Unsigned(Signed(min)) + d == min + d;
  }

  lemma VolumeMonotone(min: u32, max: u32, p: nat, q: nat)
    requires Signed(min) <= Signed(max) && p <= q <= 100
    ensures VolumeValue(min, max, p) <= VolumeValue(min, max, q)
  {
    hide Scaled, VolumeValue;
    VolumeExact(min, max, p);
    VolumeExact(min, max, q);
    ScaledBounds(Signed(max) - Signed(min), p, q);
  }

  /**
   The word sent is exact for a range ordered as unsigned words too: the arithmetic does not
   depend on which reading of min and max the device intends.
   */
  lemma VolumeWordExact(min: u32, max: u32, percent: nat)
    requires min <= max && percent <= 100
    ensures var d, span := Unsigned(VolumeValue(min, max, percent)) - min, max - min;
            100 * d <= span * percent < 100 * d + 100
    ensures Unsigned(VolumeValue(min, max, percent)) == min + Scaled(max - min, percent)
    ensures min <= Unsigned(VolumeValue(min, max, percent)) <= max
  {
    hide Scaled;
    ScaledBounds(max - min, percent, 100);
    ScaledIs(max - min, percent);
    var d := Scaled(max - min, percent);
    assert Unsigned(ToInt32(d)) == d && Unsigned(Signed(min)) == min;
    assert Wrap32(min + d) == min + d;
  }

  // ---------------------------------------------------------------------------
  // Stream tags
  // ---------------------------------------------------------------------------

  const ZERO: byte := 48
  const SPACE: byte := 32

  function Digit(d: nat): byte
    requires d < 10
  {
    ZERO + d
  }

  /** n in decimal, most significant digit first. */
  function Decimal(n: nat): (s: seq<byte>)
    ensures |s| > 0
  {
    if n < 10 then [Digit(n)] else Decimal(n / 10) + [Digit(n % 10)]
  }

  function Value(s: seq<byte>): int {
    if |s| == 0 then 0 else 10 * Value(s[..|s| - 1]) + s[|s| - 1] - ZERO
  }

  predicate IsDigits(s: seq<byte>) {
    forall i | 0 <= i < |s| :: ZERO <= s[i] < ZERO + 10
  }

  function Tag(id: u32): seq<byte> {
    Decimal(id) + [SPACE]
  }

  /** The digits are digits, parse back, and have no leading zero. */
  lemma {:induction false} DecimalParses(n: nat)
    ensures IsDigits(Decimal(n)) && Value(Decimal(n)) == n
    ensures Decimal(n)[0] == ZERO <==> n == 0
  {
    if n >= 10 {
      DecimalParses(n / 10);
      assert Decimal(n)[..|Decimal(n)| - 1] == Decimal(n / 10);
    } else {
      assert [Digit(n)][..0] == [];
    }
  }

  function Pow10(k: nat): (p: nat)
    ensures p > 0
  {
    if k == 0 then 1 else 10 * Pow10(k - 1)
  }

  /** Digit i from the right is the one of weight 10^i. */
  lemma {:induction false} DecimalAt(n: nat, i: nat)
    requires i < |Decimal(n)|
    ensures Decimal(n)[|Decimal(n)| - 1 - i] == ZERO + n / Pow10(i) % 10
    decreases n
  {
    if n >= 10 && i > 0 {
      DecimalAt(n / 10, i - 1);
      DivTenTwice(n, Pow10(i - 1));
    }
  }

  lemma DivTenTwice(n: nat, p: nat)
    requires p > 0
    ensures n / 10 / p == n / (10 * p)
  {
    var q, m := n / 10, n % 10;
    var a, b := q / p, q % p;
    assert q == a * p + b;
    assert n == a * (10 * p) + (10 * b + m) by {
      assert 10 * (a * p) == a * (10 * p);
    }
    DivUnique(a, 10 * b + m, 10 * p);
  }

  /** A number has at most k digits exactly when it is below 10^k. */
  lemma {:induction false} DecimalLength(n: nat, k: nat)
    requires k > 0
    ensures |Decimal(n)| <= k <==> n < Pow10(k)
    decreases k
  {
    if k == 1 {
      assert Pow10(1) == 10;
    } else if n < 10 {
      assert Pow10(k) >= 10;
    } else {
      DecimalLength(n / 10, k - 1);
    }
  }

  /** Every uint32 fits the ten digits streamIDTag has room for. */
  lemma TagLength(id: u32)
    ensures |Tag(id)| <= 11
  {
    DecimalLength(id, 10);
    assert Pow10(3) == 1000 && Pow10(6) == 1_000_000 && Pow10(9) == 1_000_000_000;
  }

  /** Distinct streams have distinct tags. */
  lemma TagsDiffer(a: u32, b: u32)
    ensures Tag(a) == Tag(b) <==> a == b
  {
    if Tag(a) == Tag(b) {
      assert Decimal(a) == Tag(a)[..|Tag(a)| - 1] == Decimal(b);
      DecimalParses(a);
      DecimalParses(b);
    }
  }

  /** The digits of `rest` not yet produced. */
  function Leading(rest: nat): seq<byte> {
    if rest > 0 then Decimal(rest) else []
  }

  lemma LeadingStep(rest: nat, done: seq<byte>)
    requires rest > 0
    ensures |Leading(rest)| > 0
    ensures Leading(rest) + Reversed(done) == Leading(rest / 10) + Reversed(done + [Digit(rest % 10)])
  {
    ReversedMore(done, Digit(rest % 10));
    assert Decimal(rest) == Leading(rest / 10) + [Digit(rest % 10)];
  }

  lemma NoneLeading(done: seq<byte>)
    ensures Leading(0) + Reversed(done) == Reversed(done) && Reversed([]) == []
  {
  }

  /** streamIDTag: digits are produced last first into a ten-byte array, then reversed. */
  method StreamIDTag(streamID: u32) returns (tag: seq<byte>)
    ensures tag == Tag(streamID) == Decimal(streamID) + [32]
  {
    hide Decimal, Reversed, Leading;
    if streamID == 0 {
      assert Decimal(0) == [ZERO] by {
        DecimalZero();
      }
      return [ZERO, SPACE];
    }
    var digits := new byte[10];
    var n: nat, rest: nat := 0, streamID;
    StartDigits(streamID);
    assert digits[..0] == [];
    while rest > 0
      invariant n <= 10 && rest <= streamID
      invariant Leading(rest) + Reversed(digits[..n]) == Decimal(streamID)
    {
      LeadingStep(rest, digits[..n]);
      assert |Leading(rest) + Reversed(digits[..n])| <= 10;
      digits[n] := Digit(rest % 10);
      assert digits[..n + 1] == digits[..n] + [digits[n]];
      n := n + 1;
      rest := rest / 10;
    }
    ghost var written := digits[..n];
    NoneLeading(written);
    ReversedAt(written);
    var out := new byte[n + 1](_ => 0);
    for i := 0 to n
      invariant digits[..n] == written
      invariant forall j | 0 <= j < i :: out[j] == written[n - 1 - j]
    {
      out[i] := digits[n - 1 - i];
    }
    out[n] := SPACE;
    assert out[..n] == Reversed(written);
    assert out[..] == out[..n] + [SPACE];
    return out[..];
  }

  lemma DecimalZero()
    ensures Decimal(0) == [ZERO]
  {
  }

  lemma StartDigits(id: u32)
    requires id > 0
    ensures Leading(id) + Reversed([]) == Decimal(id) && |Decimal(id)| <= 10
  {
    TagLength(id);
    NoneLeading([]);
  }

  function Reversed(s: seq<byte>): (r: seq<byte>)
    ensures |r| == |s|
  {
    if |s| == 0 then [] else Reversed(s[1..]) + [s[0]]
  }

  lemma {:induction false} ReversedMore(s: seq<byte>, b: byte)
    ensures Reversed(s + [b]) == [b] + Reversed(s)
  {
    if |s| > 0 {
      ReversedMore(s[1..], b);
      assert (s + [b])[1..] == s[1..] + [b];
    } else {
      assert Reversed([b]) == Reversed([]) + [b];
    }
  }

  lemma {:induction false} ReversedAt(s: seq<byte>)
    ensures forall i | 0 <= i < |s| :: Reversed(s)[i] == s[|s| - 1 - i]
  {
    if |s| > 0 {
      ReversedAt(s[1..]);
    }
  }

  // ---------------------------------------------------------------------------
  // Names
  // ---------------------------------------------------------------------------

  predicate MatchesAt(s: seq<byte>, sub: seq<byte>, i: nat) {
    i + |sub| <= |s| && s[i..i + |sub|] == sub
  }

  /** Byte by byte. */
  lemma MatchesAtIff(s: seq<byte>, sub: seq<byte>, i: nat)
    ensures MatchesAt(s, sub, i) <==> i + |sub| <= |s| && forall k | 0 <= k < |sub| :: s[i + k] == sub[k]
  {
    if i + |sub| <= |s| {
      var t := s[i..i + |sub|];
      assert forall k | 0 <= k < |sub| :: t[k] == s[i + k];
    }
  }

  ghost predicate Contains(s: seq<byte>, sub: seq<byte>) {
    exists i: nat :: MatchesAt(s, sub, i)
  }

  /** containsSubstring: true exactly when there is a matching offset. */
  method ContainsSubstring(s: seq<byte>, sub: seq<byte>) returns (found: bool)
    ensures found <==> Contains(s, sub)
  {
    if |sub| == 0 {
      assert MatchesAt(s, sub, 0);
      return true;
    }
    if |sub| > |s| {
      return false;
    }
    var i := 0;
    while i + |sub| <= |s|
      invariant forall j: nat | j < i :: !MatchesAt(s, sub, j)
    {
      if s[i..i + |sub|] == sub {
        assert MatchesAt(s, sub, i);
        return true;
      }
      i := i + 1;
    }
    return false;
  }

  /** The per-stream name QEMU gives: "PCM ", the stream's number, then what follows the space. */
  function StreamName(prefix: seq<byte>, k: u32, suffix: seq<byte>): seq<byte> {
    prefix + Tag(k) + suffix
  }

  predicate NoDigits(s: seq<byte>) {
    forall i | 0 <= i < |s| :: !(ZERO <= s[i] < ZERO + 10)
  }

  /** A run of digits and a space match only at the end of the name's own run of digits. */
  lemma MatchesOwnDigits(prefix: seq<byte>, own: seq<byte>, suffix: seq<byte>, d: seq<byte>, i: nat)
    requires NoDigits(prefix) && NoDigits(suffix) && IsDigits(own) && IsDigits(d) && |d| > 0
    requires MatchesAt(prefix + (own + [SPACE]) + suffix, d + [SPACE], i)
    ensures |prefix| <= i && i + |d| == |prefix| + |own|
  {
    var name, tag, m := prefix + (own + [SPACE]) + suffix, d + [SPACE], |d|;
    assert name[i..i + m + 1][0] == tag[0] && name[i..i + m + 1][m - 1] == tag[m - 1] && name[i..i + m + 1][m] == tag[m];
    assert d[0] == tag[0] && d[m - 1] == tag[m - 1];
    DigitInside(prefix, own, suffix, i);
    DigitInside(prefix, own, suffix, i + m - 1);
    DigitInside(prefix, own, suffix, i + m);
  }

  /** The digits of a stream's name are those of its number. */
  lemma DigitInside(prefix: seq<byte>, own: seq<byte>, suffix: seq<byte>, i: nat)
    requires NoDigits(prefix) && NoDigits(suffix) && IsDigits(own)
    requires i < |prefix + (own + [SPACE]) + suffix|
    ensures ZERO <= (prefix + (own + [SPACE]) + suffix)[i] < ZERO + 10 <==> |prefix| <= i < |prefix| + |own|
  {
  }

  lemma EndMatches(prefix: seq<byte>, own: seq<byte>, suffix: seq<byte>, d: seq<byte>)
    requires EndsWith(own, d)
    ensures Contains(prefix + (own + [SPACE]) + suffix, d + [SPACE])
  {
    var name, hi := prefix + (own + [SPACE]) + suffix, |prefix| + |own|;
    var i := hi - |d|;
    assert name[i..hi] == own[|own| - |d|..] == d;
    assert name[i..hi + 1] == name[i..hi] + [name[hi]];
    assert MatchesAt(name, d + [SPACE], i);
  }

  /**
   The tag of stream s occurs in the name of stream k's control exactly when the digits of s
   end the digits of k: stream 1 also matches a control of stream 11.
   */
  lemma TagMatchesIff(s: u32, k: u32, prefix: seq<byte>, suffix: seq<byte>)
    requires NoDigits(prefix) && NoDigits(suffix)
    ensures Contains(StreamName(prefix, k, suffix), Tag(s)) <==> EndsWith(Decimal(k), Decimal(s))
  {
    hide Decimal, Value, IsDigits, NoDigits;
    var name, d, own := StreamName(prefix, k, suffix), Decimal(s), Decimal(k);
    DecimalParses(s);
    DecimalParses(k);
    if i: nat :| MatchesAt(name, Tag(s), i) {
      MatchesOwnDigits(prefix, own, suffix, d, i);
      assert own[i - |prefix|..] == name[i..i + |d|] == name[i..i + |Tag(s)|][..|d|] == d;
    }
    if EndsWith(own, d) {
      EndMatches(prefix, own, suffix, d);
    }
  }

  predicate EndsWith(s: seq<byte>, t: seq<byte>) {
    |t| <= |s| && s[|s| - |t|..] == t
  }

  lemma StreamElevenMatchesOne(prefix: seq<byte>, suffix: seq<byte>)
    requires NoDigits(prefix) && NoDigits(suffix)
    ensures Contains(StreamName(prefix, 11, suffix), Tag(1))
  {
    assert Decimal(11) == Decimal(1) + [Digit(1)];
    TagMatchesIff(1, 11, prefix, suffix);
  }

  // ---------------------------------------------------------------------------
  // Selection
  // ---------------------------------------------------------------------------

  const VOLUME: seq<byte> := [86, 111, 108, 117, 109, 101]
  const SWITCH: seq<byte> := [83, 119, 105, 116, 99, 104]
  const MUTE: seq<byte> := [77, 117, 116, 101]

  ghost predicate IsVolume(c: Control) {
    c.kind == CONTROL_TYPE_INTEGER && Contains(c.name, VOLUME)
  }

  ghost predicate IsMute(c: Control) {
    c.kind == CONTROL_TYPE_BOOLEAN && (Contains(c.name, SWITCH) || Contains(c.name, MUTE))
  }

  /** Control i is the one to use: the first eligible one tagged for the stream or, if none is, the first eligible one. */
  ghost predicate Chosen(ctrls: seq<Control>, eligible: Control -> bool, tag: seq<byte>, i: nat) {
    && i < |ctrls| && eligible(ctrls[i])
    && if Contains(ctrls[i].name, tag)
       then forall j | 0 <= j < i :: !(eligible(ctrls[j]) && Contains(ctrls[j].name, tag))
       else (forall j | 0 <= j < |ctrls| :: !(eligible(ctrls[j]) && Contains(ctrls[j].name, tag)))
            && forall j | 0 <= j < i :: !eligible(ctrls[j])
  }

  lemma ChosenInside(ctrls: seq<Control>, eligible: Control -> bool, tag: seq<byte>, i: nat)
    requires Chosen(ctrls, eligible, tag, i)
    ensures i < |ctrls| && eligible(ctrls[i])
  {
  }

  /** There is at most one control to use. */
  lemma ChosenUnique(ctrls: seq<Control>, eligible: Control -> bool, tag: seq<byte>, i: nat, j: nat)
    requires Chosen(ctrls, eligible, tag, i) && Chosen(ctrls, eligible, tag, j)
    ensures i == j
  {
    if !Contains(ctrls[i].name, tag) && !Contains(ctrls[j].name, tag) {
      assert !(i < j) && !(j < i);
    }
  }

  /** findVolumeControl */
  method FindVolumeControl(ctrls: seq<Control>, streamID: u32) returns (c: Option<Control>, ghost at: nat)
    ensures c.None? <==> forall i | 0 <= i < |ctrls| :: !IsVolume(ctrls[i])
    ensures c.Some? ==> Chosen(ctrls, IsVolume, Tag(streamID), at) && c.value == ctrls[at]
    // eligible: the kind, and a name that says so; none before it is, unless it is the first of those tagged
    ensures c.None? <==> forall i | 0 <= i < |ctrls| :: !(ctrls[i].kind == CONTROL_TYPE_INTEGER && Contains(ctrls[i].name, VOLUME))
    ensures c.Some? ==> at < |ctrls| && ctrls[at].kind == CONTROL_TYPE_INTEGER && Contains(ctrls[at].name, VOLUME)
    ensures c.Some? && !Contains(ctrls[at].name, Tag(streamID)) ==>
              && (forall i | 0 <= i < at :: !(ctrls[i].kind == CONTROL_TYPE_INTEGER && Contains(ctrls[i].name, VOLUME)))
              && (forall i | 0 <= i < |ctrls| && Contains(ctrls[i].name, Tag(streamID)) ::
                    !(ctrls[i].kind == CONTROL_TYPE_INTEGER && Contains(ctrls[i].name, VOLUME)))
    ensures c.Some? && Contains(ctrls[at].name, Tag(streamID)) ==>
              forall i | 0 <= i < at && Contains(ctrls[i].name, Tag(streamID)) ::
                !(ctrls[i].kind == CONTROL_TYPE_INTEGER && Contains(ctrls[i].name, VOLUME))
  {
    var streamTag := StreamIDTag(streamID);
    c, at := None, 0;
    for i := 0 to |ctrls|
      invariant forall j | 0 <= j < i :: !(IsVolume(ctrls[j]) && Contains(ctrls[j].name, streamTag))
      invariant c.None? ==> forall j | 0 <= j < i :: !IsVolume(ctrls[j])
      invariant c.Some? ==> at < i && c.value == ctrls[at] && IsVolume(ctrls[at]) && forall j | 0 <= j < at :: !IsVolume(ctrls[j])
    {
      if ctrls[i].kind != CONTROL_TYPE_INTEGER {
        continue;
      }
      var named := ContainsSubstring(ctrls[i].name, VOLUME);
      if !named {
        continue;
      }
      var tagged := ContainsSubstring(ctrls[i].name, streamTag);
      if tagged {
        return Some(ctrls[i]), i;
      }
      if c.None? {
        c, at := Some(ctrls[i]), i;
      }
    }
  }

  /** findMuteControl */
  method FindMuteControl(ctrls: seq<Control>, streamID: u32) returns (c: Option<Control>, ghost at: nat)
    ensures c.None? <==> forall i | 0 <= i < |ctrls| :: !IsMute(ctrls[i])
    ensures c.Some? ==> Chosen(ctrls, IsMute, Tag(streamID), at) && c.value == ctrls[at]
    // eligible: the kind, and a name that says so; none before it is, unless it is the first of those tagged
    ensures c.None? <==> forall i | 0 <= i < |ctrls| ::
                !(ctrls[i].kind == CONTROL_TYPE_BOOLEAN && (Contains(ctrls[i].name, SWITCH) || Contains(ctrls[i].name, MUTE)))
    ensures c.Some? ==> at < |ctrls| && ctrls[at].kind == CONTROL_TYPE_BOOLEAN && (Contains(ctrls[at].name, SWITCH) || Contains(ctrls[at].name, MUTE))
    ensures c.Some? && !Contains(ctrls[at].name, Tag(streamID)) ==>
              && (forall i | 0 <= i < at ::
                !(ctrls[i].kind == CONTROL_TYPE_BOOLEAN && (Contains(ctrls[i].name, SWITCH) || Contains(ctrls[i].name, MUTE))))
              && (forall i | 0 <= i < |ctrls| && Contains(ctrls[i].name, Tag(streamID)) ::
                    !(ctrls[i].kind == CONTROL_TYPE_BOOLEAN && (Contains(ctrls[i].name, SWITCH) || Contains(ctrls[i].name, MUTE))))
    ensures c.Some? && Contains(ctrls[at].name, Tag(streamID)) ==>
              forall i | 0 <= i < at && Contains(ctrls[i].name, Tag(streamID)) ::
                !(ctrls[i].kind == CONTROL_TYPE_BOOLEAN && (Contains(ctrls[i].name, SWITCH) || Contains(ctrls[i].name, MUTE)))
  {
    var streamTag := StreamIDTag(streamID);
    c, at := None, 0;
    for i := 0 to |ctrls|
      invariant forall j | 0 <= j < i :: !(IsMute(ctrls[j]) && Contains(ctrls[j].name, streamTag))
      invariant c.None? ==> forall j | 0 <= j < i :: !IsMute(ctrls[j])
      invariant c.Some? ==> at < i && c.value == ctrls[at] && IsMute(ctrls[at]) && forall j | 0 <= j < at :: !IsMute(ctrls[j])
    {
      if ctrls[i].kind != CONTROL_TYPE_BOOLEAN {
        continue;
      }
      var named := ContainsSubstring(ctrls[i].name, SWITCH);
      if !named {
        named := ContainsSubstring(ctrls[i].name, MUTE);
      }
      if !named {
        continue;
      }
      var tagged := ContainsSubstring(ctrls[i].name, streamTag);
      if tagged {
        return Some(ctrls[i]), i;
      }
      if c.None? {
        c, at := Some(ctrls[i]), i;
      }
    }
  }
}
