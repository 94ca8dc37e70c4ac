/**
  The two text helpers of SocketAPI: IsIPV4Addr, the dotted-quad test, and
  GetSockAddrStr, the printable form of an IPv4 socket address. The host
  is taken to be little-endian, as on the platforms the extension targets.
*/
module SocketText {
  import opened Common
  import opened Bytes

  predicate IsDigit(c: char) { '0' <= c <= '9' }

  predicate AllDigits(s: string) {
    forall i :: 0 <= i < |s| ==> IsDigit(s[i])
  }

  /** The characters the final loop of IsIPV4Addr lets through. */
  predicate AllDigitsOrDots(s: string) {
    forall i :: 0 <= i < |s| ==> s[i] == '.' || IsDigit(s[i])
  }

  function DigitChar(d: nat): (c: char)
    requires d < 10
    ensures IsDigit(c)
  {
    ('0' as int + d) as char
  }

  function DigitValue(c: char): (d: nat)
    requires IsDigit(c)
    ensures d < 10
  {
    c as int - '0' as int
  }

  /** The value of a decimal numeral. */
  function Decimal(s: string): nat
    requires AllDigits(s)
  {
    if |s| == 0 then 0 else Decimal(s[..|s| - 1]) * 10 + DigitValue(s[|s| - 1])
  }

  /** How an ostream prints a non-negative int: its decimal numeral, without leading zeros. */
  function DecimalString(n: nat): (r: string)
    ensures |r| > 0 && AllDigits(r)
  {
    if n < 10 then [DigitChar(n)] else DecimalString(n / 10) + [DigitChar(n % 10)]
  }

  /** Printing then reading a number gives it back. */
  lemma {:induction false} DecimalOfString(n: nat)
    ensures Decimal(DecimalString(n)) == n
  {
    if n >= 10 {
      var s := DecimalString(n);
      assert s[..|s| - 1] == DecimalString(n / 10);
      DecimalOfString(n / 10);
    }
  }

  /** The length of the run of digits that s starts with. */
  function DigitRun(s: string): (r: nat)
    ensures r <= |s| && AllDigits(s[..r])
    ensures r < |s| ==> !IsDigit(s[r])
  {
    if |s| == 0 || !IsDigit(s[0]) then 0
    else
      var t := DigitRun(s[1..]);
      assert s[..1 + t] == [s[0]] + s[1..][..t];
      1 + t
  }

  /** A numeral followed by a non-digit: the run stops exactly at the numeral's end. */
  lemma {:induction false} DigitRunOfNumeral(w: string, rest: string)
    requires AllDigits(w)
    requires |rest| == 0 || !IsDigit(rest[0])
    ensures DigitRun(w + rest) == |w|
    decreases |w|
  {
    if |w| == 0 {
      assert w + rest == rest;
    } else {
      assert (w + rest)[1..] == w[1..] + rest;
      DigitRunOfNumeral(w[1..], rest);
    }
  }

  /**
    The k fields that sscanf with "%d.%d. ... %d" (k conversions) reads from
    a text of digits and dots, or None when it makes fewer than k
    conversions. Text after the last field is not looked at.
  */
  function ScanFields(s: string, k: nat): (r: Option<seq<nat>>)
    ensures r.Some? ==> |r.value| == k
    decreases k
  {
    if k == 0 then Some([])
    else
      var d := DigitRun(s);
      if d == 0 then None
      else
        var v := Decimal(s[..d]);
        if k == 1 then Some([v])
        else if d < |s| && s[d] == '.' then
          match ScanFields(s[d + 1..], k - 1)
          case None => None
          case Some(vs) => Some([v] + vs)
        else None
  }

  predicate AllAtMost255(vs: seq<nat>) {
    forall i :: 0 <= i < |vs| ==> vs[i] <= 255
  }

  /**
    IsIPV4Addr(s): four conversions, none above 255, and only digits and
    dots in the whole text. sscanf also accepts blanks and signs in front of
    a field, but any text holding one fails the character loop, so reading
    only digits and dots here gives the same answer.
  */
  function IsIPV4Addr(s: string): (r: bool)
    ensures r ==> AllDigitsOrDots(s) && |s| >= 7 && IsDigit(s[0])
  {
    var f := ScanFields(s, 4);
    if f.None? || !AllAtMost255(f.value) || !AllDigitsOrDots(s) then false
    else
      FieldsTake(s, 4);
      true
  }

  /** Four successful conversions read at least four digits and three dots, starting with a digit. */
  lemma {:induction false} FieldsTake(s: string, k: nat)
    requires k >= 1 && ScanFields(s, k).Some?
    ensures |s| >= 2 * k - 1 && IsDigit(s[0])
    decreases k
  {
    var d := DigitRun(s);
    if k > 1 {
      FieldsTake(s[d + 1..], k - 1);
    }
  }

  /** The number of dots in s. */
  function CountDots(s: string): nat {
    if |s| == 0 then 0 else (if s[0] == '.' then 1 else 0) + CountDots(s[1..])
  }

  lemma {:induction false} CountDotsAppend(a: string, b: string)
    ensures CountDots(a + b) == CountDots(a) + CountDots(b)
    decreases |a|
  {
    if |a| == 0 {
      assert a + b == b;
    } else {
      assert (a + b)[1..] == a[1..] + b;
      CountDotsAppend(a[1..], b);
    }
  }

  lemma {:induction false} NoDotsInNumeral(w: string)
    requires AllDigits(w)
    ensures CountDots(w) == 0
    decreases |w|
  {
    if |w| > 0 {
      NoDotsInNumeral(w[1..]);
    }
  }

  /** The evidently intended test: an IPv4 text is exactly four fields, so exactly three dots. */
  function IsStrictIPV4Addr(s: string): (r: bool)
    ensures r ==> IsIPV4Addr(s)
  {
    IsIPV4Addr(s) && CountDots(s) == 3
  }

  /** Numbers printed with dots between them. */
  function Join(vs: seq<nat>): (r: string)
    ensures AllDigitsOrDots(r)
    ensures |vs| > 0 ==> |r| > 0 && IsDigit(r[0])
    decreases |vs|
  {
    if |vs| == 0 then ""
    else if |vs| == 1 then DecimalString(vs[0])
    else
      var w := DecimalString(vs[0]);
      var t := Join(vs[1..]);
      var r := w + "." + t;
      assert forall i :: |w| < i < |r| ==> r[i] == t[i - |w| - 1];
      r
  }

  /** Join puts a dot between each two fields, so one dot fewer than the fields. */
  lemma {:induction false} JoinDots(vs: seq<nat>)
    requires |vs| > 0
    ensures CountDots(Join(vs)) == |vs| - 1
    decreases |vs|
  {
    var w := DecimalString(vs[0]);
    NoDotsInNumeral(w);
    if |vs| > 1 {
      JoinDots(vs[1..]);
      CountDotsAppend(w, "." + Join(vs[1..]));
      assert ("." + Join(vs[1..]))[1..] == Join(vs[1..]);
      assert w + "." + Join(vs[1..]) == w + ("." + Join(vs[1..]));
    }
  }

  /** One field: a numeral followed by a non-digit is read as its value. */
  lemma ScanOne(s: string, w: string, rest: string, k: nat)
    requires |w| > 0 && AllDigits(w) && k == 1 && s == w + rest
    requires |rest| == 0 || !IsDigit(rest[0])
    ensures ScanFields(s, k) == Some([Decimal(w)])
  {
    DigitRunOfNumeral(w, rest);
    assert s[..|w|] == w;
  }

  /** A numeral and a dot in front of text holding k - 1 fields make k fields. */
  lemma ScanNext(w: string, t: string, k: nat, vs: seq<nat>)
    requires |w| > 0 && AllDigits(w) && k > 1
    requires ScanFields(t, k - 1) == Some(vs)
    ensures ScanFields(w + "." + t, k) == Some([Decimal(w)] + vs)
  {
    var s := w + "." + t;
    assert s == w + ("." + t);
    DigitRunOfNumeral(w, "." + t);
    assert s[..|w|] == w;
    assert s[|w| + 1..] == t;
  }

  /** Joined numbers: the first numeral, a dot, and the rest joined. */
  lemma JoinCons(vs: seq<nat>)
    requires |vs| > 1
    ensures Join(vs) == DecimalString(vs[0]) + "." + Join(vs[1..])
  {
  }

  /** The first field of joined numbers is the first number. */
  lemma ScanJoinFirst(vs: seq<nat>, k: nat)
    requires |vs| >= 1 && k == 1
    ensures ScanFields(Join(vs), k) == Some([vs[0]])
  {
    var w := DecimalString(vs[0]);
    DecimalOfString(vs[0]);
    var s := Join(vs);
    if |vs| == 1 {
      assert s == w + "";
      ScanOne(s, w, "", k);
    } else {
      var t := Join(vs[1..]);
      var r := "." + t;
      assert s == w + r;
      ScanOne(s, w, r, k);
    }
  }

  /** Reading the first k fields of joined numbers gives the first k numbers back. */
  lemma {:induction false} ScanJoin(vs: seq<nat>, k: nat)
    requires 1 <= k <= |vs|
    ensures ScanFields(Join(vs), k) == Some(vs[..k])
    decreases k
  {
    if k == 1 {
      ScanJoinFirst(vs, k);
      assert vs[..1] == [vs[0]];
    } else {
      JoinCons(vs);
      ScanJoin(vs[1..], k - 1);
      ScanJoinStep(vs, k, Join(vs), Join(vs[1..]));
    }
  }

  /** The step of ScanJoin: the first number and a dot in front of text whose first k - 1 fields are the rest. */
  lemma ScanJoinStep(vs: seq<nat>, k: nat, s: string, t: string)
    requires 1 < k <= |vs| && s == DecimalString(vs[0]) + "." + t
    requires ScanFields(t, k - 1) == Some(vs[1..][..k - 1])
    ensures ScanFields(s, k) == Some(vs[..k])
  {
    DecimalOfString(vs[0]);
    ScanNext(DecimalString(vs[0]), t, k, vs[1..][..k - 1]);
    assert vs[..k] == [vs[0]] + vs[1..][..k - 1];
  }

  /** Four fields up to 255, printed with dots, pass both tests: the strict test rejects no real address. */
  lemma DottedQuadAccepted(vs: seq<nat>)
    requires |vs| == 4 && AllAtMost255(vs)
    ensures IsIPV4Addr(Join(vs)) && IsStrictIPV4Addr(Join(vs))
  {
    ScanJoin(vs, 4);
    assert vs[..4] == vs;
    JoinDots(vs);
  }

  /** A field above 255 among the first four is rejected. */
  lemma LargeFieldRejected(vs: seq<nat>, i: nat)
    requires |vs| >= 4 && i < 4 && vs[i] > 255
    ensures !IsIPV4Addr(Join(vs))
  {
    ScanJoin(vs, 4);
    assert vs[..4][i] == vs[i];
  }

  /**
    As written, IsIPV4Addr looks at four fields only: a fifth field (and
    any more) is let through, though the text is no IPv4 address.
  */
  lemma ExtraFieldAccepted(vs: seq<nat>)
    requires |vs| >= 5 && AllAtMost255(vs[..4])
    ensures IsIPV4Addr(Join(vs)) && !IsStrictIPV4Addr(Join(vs))
  {
    ScanJoin(vs, 4);
    JoinDots(vs);
  }

  /** The concrete case: "1.2.3.4.5" is accepted. */
  lemma FiveFieldsAccepted()
    ensures IsIPV4Addr("1.2.3.4.5") && !IsStrictIPV4Addr("1.2.3.4.5")
  {
    var vs: seq<nat> := [1, 2, 3, 4, 5];
    JoinCons(vs);
    JoinCons(vs[1..]);
    JoinCons(vs[2..]);
    JoinCons(vs[3..]);
    assert DecimalString(1) == "1" && DecimalString(2) == "2" && DecimalString(3) == "3";
    assert DecimalString(4) == "4" && DecimalString(5) == "5";
    assert Join(vs[4..]) == "5";
    assert Join(vs) == "1.2.3.4.5";
    ExtraFieldAccepted(vs);
  }

  /** ntohs on a little-endian host: the two bytes in memory read in network (big-endian) order. */
  function NetToHost16(p: uint16): (r: nat)
  {
    FromBE(LE(p, 2))
  }

  /**
    GetSockAddrStr: "ip[a.b.c.d] port[p]". The masks and shifts pick byte 0
    (least significant) through byte 3 of s_addr, which on a little-endian
    host are the address bytes in network order; the port is converted with
    ntohs.
  */
  function GetSockAddrStr(sAddr: uint32, sinPort: uint16): (r: string)
  {
    var o := LE(sAddr, 4);
    "ip[" + Join([o[0], o[1], o[2], o[3]]) + "] port[" + DecimalString(NetToHost16(sinPort)) + "]"
  }

  /**
    An address stored as its network-order bytes and a port stored with
    htons print as those bytes, dotted, and that port.
  */
  lemma SockAddrStrShowsAddress(a: uint8, b: uint8, c: uint8, d: uint8, port: uint16)
    ensures var addr := [a, b, c, d];
            GetSockAddrStr(FromLE(addr), FromLE(BE(port, 2)))
              == "ip[" + Join([a, b, c, d]) + "] port[" + DecimalString(port) + "]"
  {
    var addr := [a, b, c, d];
    LEOfFromLE(addr);
    var pb := BE(port, 2);
    LEOfFromLE(pb);
    FromBEOfBE(port, 2);
    var o := LE(FromLE(addr), 4);
    assert [o[0], o[1], o[2], o[3]] == [a, b, c, d];
  }
}
