/** The hand-written itoa of users-service, the atoi of gateway that reads its output, and the batch between them. */
module ChatIdText {
  import opened Decimal
  import opened Slices

  const MIN64 := -0x8000_0000_0000_0000
  const MAX64 := 0x7fff_ffff_ffff_ffff
  const TWO64 := 0x1_0000_0000_0000_0000

  type int64 = n: int | MIN64 <= n <= MAX64

  /** Two's-complement wrap-around of Go's int64. */
  function Wrap64(n: int): int64 {
    (n - MIN64) % TWO64 + MIN64
  }

  /** s is the canonical signed decimal of n. */
  predicate Denotes(s: string, n: int) {
    if n < 0 then
      |s| > 0 && s[0] == '-' && Canonical(s[1..]) && Value(s[1..]) == -n
    else
      Canonical(s) && Value(s) == n
  }

  /** What itoa writes into an empty slice: the minimum's negation wraps, no digit is written, only the sign. */
  function ItoaText(n: int64): string {
    if n == MIN64 then "-" else Render(n)
  }

  lemma ItoaTextCanonical(n: int64)
    ensures Denotes(ItoaText(n), n) <==> n != MIN64
  {
    if n == MIN64 {
      assert ItoaText(n)[1..] == "";
    } else if n < 0 {
      assert Render(n)[1..] == Digits(-n);
      DigitsDenote(-n);
    } else {
      DigitsDenote(n);
    }
  }

  lemma DenotesUnique(s: string, n: int)
    requires Denotes(s, n)
    ensures s == Render(n)
  {
    if n < 0 {
      CanonicalUnique(s[1..]);
      assert s == [s[0]] + s[1..];
    } else {
      CanonicalUnique(s);
    }
  }

  lemma Pow10Of19()
    ensures Pow10(19) == 10_000_000_000_000_000_000
  {
    assert Pow10(5) == 100_000;
    assert Pow10(10) == 10_000_000_000;
    assert Pow10(15) == 1_000_000_000_000_000;
  }

  /** The digits still to be written when m is left. */
  function Rest(m: int): string {
    if m > 0 then Digits(m) else []
  }

  lemma RestStep(m: int)
    requires m > 0
    ensures |Rest(m)| > 0 && Rest(m)[|Rest(m)| - 1] == Digit(m % 10)
    ensures Rest(m / 10) == Rest(m)[..|Rest(m)| - 1]
  {
  }

  lemma RestFits(n: int64)
    ensures |Rest(n)| <= 19
  {
    Pow10Of19();
    if n > 0 {
      DigitsLength(n, 19);
    }
  }

  /** The digit loop of itoa, filling the scratch array from its end. A place is always left for the sign. */
  method FillScratch(n: int64, b: array<char>) returns (pos: nat)
    requires b.Length == 20
    modifies b
    ensures 1 <= pos <= 20
    ensures b[pos..] == Rest(n)
  {
    RestFits(n);
    ghost var text := Rest(n);
    pos := 20;
    var m: int := n;
    while m > 0
      invariant 20 - |text| <= pos <= 20
      invariant Rest(m) == text[..|text| - 20 + pos]
      invariant forall k | pos <= k < 20 :: b[k] == text[|text| - 20 + k]
    {
      RestStep(m);
      pos := pos - 1;
      b[pos] := Digit(m % 10);
      m := m / 10;
    }
  }

  method Itoa(n: int64, buf: Slice)
    requires buf.Valid()
    modifies buf, buf.data
    ensures buf.Valid()
    ensures buf.data == old(buf.data) || fresh(buf.data)
    ensures buf.Contents() ==
            if n == 0 && old(buf.len) > 0 then "0" + old(buf.Contents())[1..] else ItoaText(n)
  {
    if n == 0 {
      if buf.len > 0 {
        buf.data[0] := '0';
      } else {
        if buf.data.Length == 0 {
          buf.data := new char[1];
        }
        buf.data[0] := '0';
        buf.len := 1;
      }
      return;
    }

    var b := new char[20];
    var isNeg := n < 0;
    var m: int := n;
    if isNeg {
      m := Wrap64(-m);
    }
    var pos := FillScratch(m, b);
    if isNeg {
      ghost var digits := b[pos..];
      pos := pos - 1;
      b[pos] := '-';
      assert b[pos..] == "-" + digits;
    }
    assert b[pos..] == ItoaText(n);

    buf.Assign(b, pos);
  }

  /** The leading digits of b, up to the first byte that is not a digit. */
  function DigitPrefix(b: string): (p: string)
    ensures AllDigits(p) && p <= b
    ensures |p| < |b| ==> !IsDigit(b[|p|])
  {
    if b == [] || !IsDigit(b[0]) then [] else [b[0]] + DigitPrefix(b[1..])
  }

  function AtoiValue(b: string): int64 {
    Wrap64(Value(DigitPrefix(b)))
  }

  lemma WrapStep(v: int, d: int)
    ensures Wrap64(Wrap64(v) * 10 + d) == Wrap64(v * 10 + d)
  {
    var q := (v - MIN64) / TWO64;
    assert Wrap64(v) == v - q * TWO64;
    var x := v * 10 + d - MIN64;
    assert Wrap64(v) * 10 + d - MIN64 == x - (10 * q) * TWO64;
    ModShift(x, -10 * q);
  }

  lemma ModShift(x: int, k: int)
    ensures (x + k * TWO64) % TWO64 == x % TWO64
  {
    var q, r := x / TWO64, x % TWO64;
    assert x + k * TWO64 == (q + k) * TWO64 + r;
    ModUnique(x + k * TWO64, q + k, r);
  }

  lemma ModUnique(x: int, q: int, r: int)
    requires x == q * TWO64 + r && 0 <= r < TWO64
    ensures x % TWO64 == r
  {
  }

  method Atoi(b: string) returns (n: int64)
    ensures n == AtoiValue(b)
  {
    n := 0;
    var i := 0;
    assert b[..0] == [];
    while i < |b|
      invariant 0 <= i <= |b| && AllDigits(b[..i])
      invariant n == Wrap64(Value(b[..i]))
    {
      if !IsDigit(b[i]) {
        break;
      }
      WrapStep(Value(b[..i]), DigitValue(b[i]));
      assert b[..i + 1][..i] == b[..i];
      n := Wrap64(n * 10 + DigitValue(b[i]));
      i := i + 1;
    }
    assert |DigitPrefix(b)| == i;
    assert DigitPrefix(b) == b[..i];
  }

  lemma AllDigitsPrefix(s: string)
    requires AllDigits(s)
    ensures DigitPrefix(s) == s
  {
    assert |DigitPrefix(s)| == |s|;
  }

  lemma WrapInRange(n: int64)
    ensures Wrap64(n) == n
  {
  }

  lemma RoundTripNatural(n: int64)
    requires n >= 0
    ensures AtoiValue(ItoaText(n)) == n
  {
    DigitsDenote(n);
    AllDigitsPrefix(Digits(n));
    WrapInRange(n);
  }

  lemma RoundTripNegative(n: int64)
    requires n < 0
    ensures AtoiValue(ItoaText(n)) == 0
  {
    assert ItoaText(n)[0] == '-';
    assert DigitPrefix(ItoaText(n)) == [];
  }

  /** Across the two services a chat id survives exactly when it is not negative. */
  lemma RoundTrip(n: int64)
    ensures AtoiValue(ItoaText(n)) == n <==> n >= 0
  {
    if n < 0 {
      RoundTripNegative(n);
    } else {
      RoundTripNatural(n);
    }
  }

  /** One message per chat id, each keeping its own bytes although the scratch buffers are reused between batches. */
  method SendNotificationBatch(chatIds: seq<int64>, bufs: seq<array<char>>) returns (msgs: seq<Slice>)
    requires |chatIds| <= |bufs|
    requires forall i, j | 0 <= i < j < |bufs| :: bufs[i] != bufs[j] || bufs[i].Length == 0
    modifies set i | 0 <= i < |bufs| :: bufs[i]
    ensures |msgs| == |chatIds|
    ensures forall i | 0 <= i < |msgs| :: msgs[i].Valid() && msgs[i].Contents() == ItoaText(chatIds[i])
    ensures forall i | 0 <= i < |msgs| && chatIds[i] >= 0 :: AtoiValue(msgs[i].Contents()) == chatIds[i]
  {
    msgs := [];
    for i := 0 to |chatIds|
      invariant |msgs| == i
      invariant forall j | 0 <= j < i :: fresh(msgs[j]) && msgs[j].Valid() && msgs[j].len > 0
      invariant forall j | 0 <= j < i :: msgs[j].data == bufs[j] || fresh(msgs[j].data)
      invariant forall j | 0 <= j < i :: msgs[j].Contents() == ItoaText(chatIds[j])
    {
      var buf := new Slice.Over(bufs[i]);
      forall j | 0 <= j < i
        ensures msgs[j].data != buf.data
      {
        if msgs[j].data == bufs[j] {
          assert bufs[j].Length > 0;
        }
      }
      Itoa(chatIds[i], buf);
      msgs := msgs + [buf];
    }
    forall i | 0 <= i < |msgs| && chatIds[i] >= 0
      ensures AtoiValue(msgs[i].Contents()) == chatIds[i]
    {
      RoundTrip(chatIds[i]);
    }
  }
}
