/** The mesh address pool and the dotted-quad text that the node table keeps addresses in. */
module IpAllocators {
  import opened Basics

  // ---- Dotted quads -------------------------------------------------------------------------------

  predicate IsDigit(c: char) {
    '0' <= c <= '9'
  }

  function Decimal(n: nat): (s: string)
    ensures s != "" && forall i | 0 <= i < |s| :: IsDigit(s[i])
  {
    (if n < 10 then "" else Decimal(n / 10)) + [(48 + n % 10) as char]
  }

  function Value(digits: string): nat
    requires forall i | 0 <= i < |digits| :: IsDigit(digits[i])
  {
    if digits == "" then 0
    else
      assert IsDigit(digits[|digits| - 1]);
      10 * Value(digits[..|digits| - 1]) + (digits[|digits| - 1] as int - 48)
  }

  function Unsigned(s: string): string {
    if |s| > 1 && s[0] == '+' then s[1..] else s
  }

  predicate AllDigits(s: string) {
    s != "" && forall i | 0 <= i < |s| :: IsDigit(s[i])
  }

  /** `str::parse::<u8>`: decimal digits after an optional plus sign, and no overflow. */
  function ParseOctet(s: string): Option<byte> {
    var digits := Unsigned(s);
    if AllDigits(digits) && Value(digits) < 0x100 then Some(Value(digits)) else None
  }

  /** `str::split('.')`. */
  function Split(s: string): (parts: seq<string>)
    ensures parts != []
  {
    if s == "" then [""]
    else
      var rest := Split(s[1..]);
      if s[0] == '.' then [""] + rest else [[s[0]] + rest[0]] + rest[1..]
  }

  /** A part that is missing or does not parse counts as zero. */
  function OctetAt(parts: seq<string>, i: nat): byte {
    if i < |parts| && ParseOctet(parts[i]).Some? then ParseOctet(parts[i]).value else 0
  }

  function FromText(s: string): nat {
    FromBigEndian([OctetAt(Split(s), 0), OctetAt(Split(s), 1), OctetAt(Split(s), 2), OctetAt(Split(s), 3)])
  }

  function Quad(b: seq<byte>): string
    requires |b| == 4
  {
    Decimal(b[0]) + "." + Decimal(b[1]) + "." + Decimal(b[2]) + "." + Decimal(b[3])
  }

  function Text(n: u32): string {
    Quad(BigEndian(n, 4))
  }

  /** `ipv4_str_to_u32`. */
  method Ipv4StrToU32(s: string) returns (n: nat)
    ensures n == FromText(s)
  {
    var out := new byte[4](_ => 0);
    var parts := Split(s);
    var i := 0;
    while i < |parts| && i < 4
      invariant 0 <= i <= 4
      invariant forall k | 0 <= k < 4 :: out[k] == if k < i then OctetAt(parts, k) else 0
      invariant i < 4 || i <= |parts|
    {
      var part := ParseOctet(parts[i]);
      out[i] := if part.Some? then part.value else 0;
      i := i + 1;
    }
    assert out[..] == [OctetAt(parts, 0), OctetAt(parts, 1), OctetAt(parts, 2), OctetAt(parts, 3)];
    n := FromBigEndian(out[..]);
  }

  lemma {:induction false} DecimalValue(n: nat)
    ensures Value(Decimal(n)) == n
  {
    var s := Decimal(n);
    if n < 10 {
      assert s[..|s| - 1] == "";
    } else {
      DecimalValue(n / 10);
      assert s[..|s| - 1] == Decimal(n / 10);
    }
  }

  lemma DecimalParses(b: byte)
    ensures ParseOctet(Decimal(b)) == Some(b)
  {
    DecimalValue(b);
    assert Decimal(b)[0] != '+';
  }

  function Noughts(k: nat): (s: string)
    ensures |s| == k && forall i | 0 <= i < k :: s[i] == '0'
  {
    seq(k, _ => '0')
  }

  lemma {:induction false} NoughtsValue(k: nat)
    ensures Value(Noughts(k)) == 0
  {
    if k > 0 {
      assert Noughts(k)[..k - 1] == Noughts(k - 1);
      NoughtsValue(k - 1);
    }
  }

  lemma OneMoreDigit(v: nat, c: char)
    requires IsDigit(c)
    ensures Decimal(10 * v + (c as int - 48)) == if v == 0 then [c] else Decimal(v) + [c]
  {
  }

  lemma LastDigit(front: string, c: char)
    requires AllDigits(front + [c]) && AllDigits(front)
    ensures Value(front + [c]) == 10 * Value(front) + (c as int - 48)
  {
    assert (front + [c])[..|front|] == front;
  }

  lemma {:induction false} PaddedValue(k: nat, n: nat)
    ensures AllDigits(Noughts(k) + Decimal(n)) && Value(Noughts(k) + Decimal(n)) == n
  {
    var s := Noughts(k) + Decimal(n);
    var front := s[..|s| - 1];
    assert AllDigits(s) && s == front + [s[|s| - 1]];
    if n < 10 {
      NoughtsValue(k);
      assert front == Noughts(k);
    } else {
      PaddedValue(k, n / 10);
      assert front == Noughts(k) + Decimal(n / 10);
      LastDigit(front, s[|s| - 1]);
      hide Value;
    }
  }

  lemma {:induction false} DigitsArePadded(s: string) returns (k: nat)
    requires AllDigits(s)
    ensures s == Noughts(k) + Decimal(Value(s))
  {
    var front, c := s[..|s| - 1], s[|s| - 1];
    assert IsDigit(c) && s == front + [c];
    k := 0;
    if front == "" {
    } else {
      assert AllDigits(front);
      k := DigitsArePadded(front);
      LastDigit(front, c);
      OneMoreDigit(Value(front), c);
      hide Value;
      if Value(front) == 0 {
        assert Noughts(k) + Decimal(0) == Noughts(k + 1);
        k := k + 1;
      } else {
        hide Decimal;
      }
    }
  }

  ghost predicate WritesOctet(s: string, b: byte) {
    exists k: nat :: s == Noughts(k) + Decimal(b) || s == "+" + Noughts(k) + Decimal(b)
  }

  lemma SignedOrNot(s: string, digits: string)
    requires AllDigits(digits)
    ensures Unsigned(s) == digits <==> s == digits || s == "+" + digits
  {
    assert IsDigit(digits[0]);
    if |s| > 1 && s[0] == '+' { assert s == "+" + s[1..]; }
    if s == "+" + digits { assert s[1..] == digits; }
  }

  /** The texts of an octet are its decimal digits, with any number of noughts and at most one plus sign in front. */
  lemma ParsesIff(s: string, b: byte)
    ensures ParseOctet(s) == Some(b) <==> WritesOctet(s, b)
  {
    hide Unsigned, Decimal, Value, Noughts;
    if ParseOctet(s) == Some(b) {
      var k := DigitsArePadded(Unsigned(s));
      SignedOrNot(s, Unsigned(s));
      assert "+" + (Noughts(k) + Decimal(b)) == "+" + Noughts(k) + Decimal(b);
      assert WritesOctet(s, b);
    }
    if WritesOctet(s, b) {
      var k: nat :| s == Noughts(k) + Decimal(b) || s == "+" + Noughts(k) + Decimal(b);
      PaddedValue(k, b);
      assert "+" + (Noughts(k) + Decimal(b)) == "+" + Noughts(k) + Decimal(b);
      SignedOrNot(s, Noughts(k) + Decimal(b));
    }
  }

  predicate NoDot(s: string) {
    forall i | 0 <= i < |s| :: s[i] != '.'
  }

  lemma {:induction false} SplitAtDot(a: string, rest: string)
    requires NoDot(a)
    ensures Split(a + "." + rest) == [a] + Split(rest)
  {
    var s := a + "." + rest;
    if a == "" {
      assert s[1..] == rest;
    } else {
      SplitAtDot(a[1..], rest);
      assert s[1..] == a[1..] + "." + rest;
      assert [a[0]] + a[1..] == a;
    }
  }

  lemma {:induction false} SplitWithoutDot(a: string)
    requires NoDot(a)
    ensures Split(a) == [a]
  {
    if a == "" {
    } else {
      SplitWithoutDot(a[1..]);
      assert [a[0]] + a[1..] == a;
    }
  }

  lemma QuadSplits(b: seq<byte>)
    requires |b| == 4
    ensures Split(Quad(b)) == [Decimal(b[0]), Decimal(b[1]), Decimal(b[2]), Decimal(b[3])]
  {
    var d, c, x, y := Decimal(b[0]), Decimal(b[1]), Decimal(b[2]), Decimal(b[3]);
    assert Quad(b) == d + "." + (c + "." + (x + "." + y));
    SplitAtDot(d, c + "." + (x + "." + y));
    SplitAtDot(c, x + "." + y);
    SplitAtDot(x, y);
    SplitWithoutDot(y);
  }

  lemma QuadRoundTrip(b: seq<byte>)
    requires |b| == 4
    ensures FromText(Quad(b)) == FromBigEndian(b)
  {
    hide Quad, Split, Decimal, ParseOctet, FromBigEndian;
    QuadSplits(b);
    DecimalParses(b[0]);
    DecimalParses(b[1]);
    DecimalParses(b[2]);
    DecimalParses(b[3]);
    assert b == [b[0], b[1], b[2], b[3]];
  }

  lemma Bytes(n: u32)
    ensures FromBigEndian(BigEndian(n, 4)) == n && Text(n) == Quad(BigEndian(n, 4))
  {
    assert Pow256(4) == 0x1_0000_0000;
    BigEndianRoundTrip(n, 4);
  }

  /** Parsing undoes printing, so different addresses have different texts. */
  lemma TextRoundTrip(n: u32)
    ensures FromText(Text(n)) == n
  {
    Bytes(n);
    QuadRoundTrip(BigEndian(n, 4));
  }

  // ---- The pool -----------------------------------------------------------------------------------

  const IP_POOL_HOST_COUNT: nat := 65534
  /** 100.100.0.1 */
  const IP_POOL_FIRST_HOST: nat := ((100 * 256 + 100) * 256 + 0) * 256 + 1

  predicate InPool(n: int) {
    IP_POOL_FIRST_HOST <= n < IP_POOL_FIRST_HOST + IP_POOL_HOST_COUNT
  }

  /** The least free address of the pool from offset i on. */
  function LeastFree(used: set<nat>, i: nat := 0): (r: Option<u32>)
    requires i <= IP_POOL_HOST_COUNT
    ensures r.Some? ==> InPool(r.value) && IP_POOL_FIRST_HOST + i <= r.value && r.value !in used
    ensures forall n | IP_POOL_FIRST_HOST + i <= n < (if r.Some? then r.value
                                                      else IP_POOL_FIRST_HOST + IP_POOL_HOST_COUNT) :: n in used
    decreases IP_POOL_HOST_COUNT - i
  {
    if i == IP_POOL_HOST_COUNT then None
    else if IP_POOL_FIRST_HOST + i !in used then Some(IP_POOL_FIRST_HOST + i)
    else LeastFree(used, i + 1)
  }

  /** The pool runs from 100.100.0.1 to 100.100.255.254. */
  lemma PoolEnds()
    ensures FromText(Quad([100, 100, 0, 1])) == IP_POOL_FIRST_HOST
    ensures FromText(Quad([100, 100, 255, 254])) == IP_POOL_FIRST_HOST + IP_POOL_HOST_COUNT - 1
  {
    QuadRoundTrip([100, 100, 0, 1]);
    QuadRoundTrip([100, 100, 255, 254]);
    hide FromText, Quad;
    BigEndianOfFour(100, 100, 0, 1);
    BigEndianOfFour(100, 100, 255, 254);
  }

  lemma Digits100()
    ensures Decimal(100) == "100" && Decimal(0) == "0" && Decimal(1) == "1"
  {
    assert Decimal(10) == "10";
  }

  lemma Digits254()
    ensures Decimal(255) == "255" && Decimal(254) == "254"
  {
    assert Decimal(25) == "25";
  }

  lemma PoolQuads()
    ensures Quad([100, 100, 0, 1]) == "100.100.0.1" && Quad([100, 100, 255, 254]) == "100.100.255.254"
  {
    Digits100();
    Digits254();
    hide Decimal;
  }

  /** What the ends of the pool look like. */
  lemma PoolText()
    ensures InPool(1684275201) && !InPool(1684275200) && Text(1684275201) == "100.100.0.1"
    ensures InPool(1684340734) && !InPool(1684340735) && Text(1684340734) == "100.100.255.254"
  {
    BigEndianIs(100, 100, 0, 1);
    BigEndianIs(100, 100, 255, 254);
    PoolQuads();
    hide BigEndian, Quad;
  }

  lemma BigEndianIs(a: byte, b: byte, c: byte, d: byte)
    ensures BigEndian(((a * 256 + b) * 256 + c) * 256 + d, 4) == [a, b, c, d]
  {
    var x := (a * 256 + b) * 256 + c;
    assert (x * 256 + d) / 256 == x;
    var y := a * 256 + b;
    assert (y * 256 + c) / 256 == y && (a * 256 + b) / 256 == a;
    assert BigEndian(a, 1) == BigEndian(a / 256, 0) + [a];
    assert BigEndian(y, 2) == BigEndian(a, 1) + [b] && BigEndian(x, 3) == BigEndian(y, 2) + [c];
    assert BigEndian(x * 256 + d, 4) == BigEndian(x, 3) + [d];
  }

  function Addresses(ips: seq<string>): set<nat> {
    set i | 0 <= i < |ips| :: FromText(ips[i])
  }

  class IpAllocator {
    var used: set<nat>

    /** `IpAllocator::new`, given the `ip` column of the node table. */
    constructor (ips: seq<string>)
      ensures used == Addresses(ips)
    {
      new;
      used := {};
      for i := 0 to |ips|
        invariant used == Addresses(ips[..i])
      {
        var n := Ipv4StrToU32(ips[i]);
        assert ips[..i + 1] == ips[..i] + [ips[i]];
        AddressesAppend(ips[..i], ips[i]);
        used := used + {n};
      }
      assert ips[..|ips|] == ips;
    }

    /** The least free address, or None exactly when the pool is used up. */
    method Allocate() returns (r: Option<seq<byte>>)
      modifies this
      ensures r.None? <==> forall n: nat | InPool(n) :: n in old(used)
      ensures r.None? ==> used == old(used)
      ensures r.Some? ==>
                var n := FromBigEndian(r.value);
                && LeastFree(old(used)) == Some(n) && r.value == BigEndian(n, 4) && Quad(r.value) == Text(n)
                && n !in old(used) && InPool(n) && (forall m: nat | InPool(m) && m < n :: m in old(used))
                && used == old(used) + {n}
    {
      hide BigEndian, FromBigEndian, Quad;
      var i := 0;
      while i < IP_POOL_HOST_COUNT
        invariant 0 <= i <= IP_POOL_HOST_COUNT && used == old(used)
        invariant LeastFree(used) == LeastFree(used, i)
        invariant forall n: nat | IP_POOL_FIRST_HOST <= n < IP_POOL_FIRST_HOST + i :: n in used
      {
        var candidate := IP_POOL_FIRST_HOST + i;
        if candidate !in used {
          used := used + {candidate};
          Bytes(candidate);
          return Some(BigEndian(candidate, 4));
        }
        i := i + 1;
      }
      return None;
    }

    method Release(ip: seq<byte>)
      modifies this
      ensures used == old(used) - {FromBigEndian(ip)}
    {
      used := used - {FromBigEndian(ip)};
    }
  }

  lemma AddressesAppend(ips: seq<string>, ip: string)
    ensures Addresses(ips + [ip]) == Addresses(ips) + {FromText(ip)}
  {
    var all := ips + [ip];
    assert all[|ips|] == ip;
    forall n | n in Addresses(ips) ensures n in Addresses(all) {
      var i :| 0 <= i < |ips| && FromText(ips[i]) == n;
      assert all[i] == ips[i];
    }
  }

  /** Rebuilding from a table of printed addresses yields exactly those addresses. */
  lemma RebuiltFromTable(hosts: seq<u32>, ips: seq<string>)
    requires |ips| == |hosts| && forall i | 0 <= i < |hosts| :: ips[i] == Text(hosts[i])
    ensures Addresses(ips) == set n: nat | n in hosts
  {
    forall i | 0 <= i < |hosts| ensures FromText(ips[i]) == hosts[i] { TextRoundTrip(hosts[i]); }
    forall n: nat | n in hosts ensures n in Addresses(ips) {
      var i :| 0 <= i < |hosts| && hosts[i] == n;
      assert FromText(ips[i]) == n;
    }
  }
}
