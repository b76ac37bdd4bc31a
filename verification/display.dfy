/**
 * The pieces `AnalogStick.String` and `SA.String` print: `%+04d` numbers, the
 * held-button lists in their fixed order, their names, and the `", "` join.
 */
module Display {
  import opened Sixaxis

  // ---------------------------------------------------------------------
  // Decimal digits

  predicate IsDigit(c: char) {
    '0' <= c <= '9'
  }

  predicate AllDigits(t: string) {
    forall i :: 0 <= i < |t| ==> IsDigit(t[i])
  }

  function DigitChar(d: nat): (c: char)
    requires d < 10
    ensures IsDigit(c)
  {
    "0123456789"[d]
  }

  function DigitOf(c: char): (d: nat)
    requires IsDigit(c)
    ensures d < 10
  {
    (c as int) - ('0' as int)
  }

  /** The number a string of decimal digits denotes; leading zeros add nothing. */
  function Value(ds: string): nat
    requires AllDigits(ds)
    decreases |ds|
  {
    if |ds| == 0 then 0 else Value(ds[..|ds| - 1]) * 10 + DigitOf(ds[|ds| - 1])
  }

  /** The decimal digits of `n`, without leading zeros. */
  function Digits(n: nat): (ds: string)
    ensures |ds| >= 1 && AllDigits(ds)
    ensures n > 0 ==> ds[0] != '0'
    ensures n < 10 <==> |ds| == 1
  {
    if n < 10 then [DigitChar(n)] else Digits(n / 10) + [DigitChar(n % 10)]
  }

  lemma {:induction false} ValueDigits(n: nat)
    ensures Value(Digits(n)) == n
  {
    if n >= 10 {
      var ds := Digits(n);
      assert ds[..|ds| - 1] == Digits(n / 10);
      ValueDigits(n / 10);
    }
  }

  function Zeros(k: nat): (z: string)
    ensures |z| == k && AllDigits(z)
    ensures forall i :: 0 <= i < k ==> z[i] == '0'
  {
    seq(k, _ => '0')
  }

  lemma {:induction false} ValueZeros(k: nat)
    ensures Value(Zeros(k)) == 0
  {
    if k > 0 {
      assert Zeros(k)[..k - 1] == Zeros(k - 1);
      ValueZeros(k - 1);
    }
  }

  lemma {:induction false} ValueLeadingZeros(k: nat, ds: string)
    requires AllDigits(ds)
    ensures AllDigits(Zeros(k) + ds)
    ensures Value(Zeros(k) + ds) == Value(ds)
    decreases |ds|
  {
    var t := Zeros(k) + ds;
    assert AllDigits(t) by {
      forall i | 0 <= i < |t| ensures IsDigit(t[i]) {
        if i >= k { assert t[i] == ds[i - k]; }
      }
    }
    if |ds| == 0 {
      assert t == Zeros(k);
      ValueZeros(k);
    } else {
      assert t[..|t| - 1] == Zeros(k) + ds[..|ds| - 1];
      ValueLeadingZeros(k, ds[..|ds| - 1]);
    }
  }

  // ---------------------------------------------------------------------
  // `%+04d`

  function Abs(v: int): nat {
    if v < 0 then -v else v
  }

  /** Left-pads a digit string with zeros to at least three digits. */
  function ZeroPad(ds: string): (p: string)
    requires AllDigits(ds)
    ensures AllDigits(p) && Value(p) == Value(ds)
    ensures |p| == if |ds| >= 3 then |ds| else 3
    ensures |ds| >= 3 ==> p == ds
  {
    if |ds| >= 3 then ds
    else
      ValueLeadingZeros(3 - |ds|, ds);
      Zeros(3 - |ds|) + ds
  }

  /**
   * Go's `%+04d`: always a sign, then the magnitude's digits zero-padded so
   * that the whole text is at least four characters wide.
   */
  function FormatSigned(v: int): (t: string)
    ensures |t| >= 4
    ensures t[0] == (if v < 0 then '-' else '+')
    ensures AllDigits(t[1..]) && Value(t[1..]) == Abs(v)
    ensures |t| == 4 || t[1] != '0'
  {
    var ds := Digits(Abs(v));
    ValueDigits(Abs(v));
    var padded := ZeroPad(ds);
    var t := (if v < 0 then "-" else "+") + padded;
    assert t[1..] == padded;
    t
  }

  /** `AnalogStick.String`: `%+04d, %+04d` of the two axes. */
  function StickString(st: Stick): string
  {
    FormatSigned(st.x) + ", " + FormatSigned(st.y)
  }

  // ---------------------------------------------------------------------
  // Button lists

  /** The label each button is listed under. */
  function Name(b: Button): string
  {
    match b
    case Select => "select"
    case L3 => "L3"
    case R3 => "R3"
    case Start => "start"
    case Up => "up"
    case Right => "right"
    case Down => "down"
    case Left => "left"
    case L2 => "L2"
    case R2 => "R2"
    case L1 => "L1"
    case R1 => "R1"
    case Triangle => "triangle"
    case Circle => "circle"
    case Cross => "cross"
    case Square => "square"
    case PS => "PS"
  }

  /** Position of a button in the printed text: the d-pad first, then the rest. */
  function Rank(b: Button): nat
  {
    match b
    case Up => 0
    case Down => 1
    case Left => 2
    case Right => 3
    case Select => 4
    case L3 => 5
    case R3 => 6
    case Start => 7
    case L2 => 8
    case R2 => 9
    case L1 => 10
    case R1 => 11
    case Triangle => 12
    case Circle => 13
    case Cross => 14
    case Square => 15
    case PS => 16
  }

  predicate IsDpad(b: Button) {
    b == Up || b == Down || b == Left || b == Right
  }

  predicate Increasing(bs: seq<Button>) {
    forall i, j :: 0 <= i < j < |bs| ==> Rank(bs[i]) < Rank(bs[j])
  }

  const DpadOrder: seq<Button> := [Up, Down, Left, Right]

  const ButtonOrder: seq<Button> :=
    [Select, L3, R3, Start, L2, R2, L1, R1, Triangle, Circle, Cross, Square, PS]

  /** The buttons of `order` that are held, keeping their order. */
  function Held(s: State, order: seq<Button>): (r: seq<Button>)
    requires Increasing(order)
    ensures forall b :: b in r <==> b in order && Pressed(s, b)
    ensures Increasing(r)
  {
    if |order| == 0 then []
    else
      var tail := Held(s, order[1..]);
      RankBelowTail(order, tail);
      if Pressed(s, order[0]) then
        IncreasingCons(order[0], tail);
        [order[0]] + tail
      else
        tail
  }

  lemma RankBelowTail(order: seq<Button>, tail: seq<Button>)
    requires |order| > 0 && Increasing(order)
    requires forall b :: b in tail ==> b in order[1..]
    ensures forall b :: b in tail ==> Rank(order[0]) < Rank(b)
  {
    forall b | b in tail ensures Rank(order[0]) < Rank(b) {
      var j :| 0 <= j < |order[1..]| && order[1..][j] == b;
      assert order[j + 1] == b;
    }
  }

  lemma IncreasingCons(x: Button, tail: seq<Button>)
    requires Increasing(tail)
    requires forall b :: b in tail ==> Rank(x) < Rank(b)
    ensures Increasing([x] + tail)
  {
    var r := [x] + tail;
    forall i, j | 0 <= i < j < |r| ensures Rank(r[i]) < Rank(r[j]) {
      assert r[j] == tail[j - 1];
      if i > 0 {
        assert r[i] == tail[i - 1];
      }
    }
  }

  /** A Rank-increasing list is fixed by which buttons it contains. */
  lemma {:induction false} IncreasingUnique(r1: seq<Button>, r2: seq<Button>)
    requires Increasing(r1) && Increasing(r2)
    requires forall b :: b in r1 <==> b in r2
    ensures r1 == r2
  {
    NonEmptyTogether(r1, r2);
    if |r1| > 0 {
      assert r1[0] in r2 && r2[0] in r1;
      RankInjective(r1[0], r2[0]);
      forall b ensures b in r1[1..] <==> b in r2[1..] {
        RestMembers(r1, b);
        RestMembers(r2, b);
      }
      IncreasingUnique(r1[1..], r2[1..]);
      assert r1 == [r1[0]] + r1[1..];
      assert r2 == [r2[0]] + r2[1..];
    }
  }

  lemma NonEmptyTogether(r1: seq<Button>, r2: seq<Button>)
    requires forall b :: b in r1 <==> b in r2
    ensures |r1| > 0 <==> |r2| > 0
  {
    if |r1| > 0 {
      assert r1[0] in r2;
    }
    if |r2| > 0 {
      assert r2[0] in r1;
    }
  }

  lemma RankInjective(b: Button, c: Button)
    requires Rank(b) == Rank(c)
    ensures b == c
  {
  }

  lemma RestMembers(r: seq<Button>, b: Button)
    requires |r| > 0 && Increasing(r)
    ensures b in r[1..] <==> b in r && b != r[0]
  {
    if b in r && b != r[0] {
      var j :| 0 <= j < |r| && r[j] == b;
      assert r[1..][j - 1] == b;
    }
    if b in r[1..] {
      var j :| 0 <= j < |r[1..]| && r[1..][j] == b;
      assert r[j + 1] == b;
      assert Rank(r[0]) < Rank(r[j + 1]);
    }
  }

  /** The d-pad list: held d-pad buttons in the order up, down, left, right. */
  function DpadHeld(s: State): (r: seq<Button>)
    ensures forall b :: b in r <==> IsDpad(b) && Pressed(s, b)
    ensures Increasing(r)
  {
    Held(s, DpadOrder)
  }

  /**
   * The buttons list: the other held buttons in the order select, L3, R3,
   * start, L2, R2, L1, R1, triangle, circle, cross, square, PS.
   */
  function OtherHeld(s: State): (r: seq<Button>)
    ensures forall b :: b in r <==> !IsDpad(b) && Pressed(s, b)
    ensures Increasing(r)
  {
    assert forall b :: b in ButtonOrder <==> !IsDpad(b);
    Held(s, ButtonOrder)
  }

  /** No two buttons print under the same name. */
  lemma NameInjective(b: Button, c: Button)
    requires Name(b) == Name(c)
    ensures b == c
  {
  }

  /** A list of printed names mentions a button's name exactly when the button is listed. */
  lemma NamedMembers(bs: seq<Button>, ns: seq<string>)
    requires |ns| == |bs|
    requires forall i :: 0 <= i < |bs| ==> ns[i] == Name(bs[i])
    ensures forall b :: Name(b) in ns <==> b in bs
  {
    forall b ensures Name(b) in ns <==> b in bs {
      if Name(b) in ns {
        var i :| 0 <= i < |ns| && ns[i] == Name(b);
        NameInjective(b, bs[i]);
      }
      if b in bs {
        var i :| 0 <= i < |bs| && bs[i] == b;
        assert ns[i] == Name(b);
      }
    }
  }

  /**
   * The names of a list of buttons, position by position. Since names are
   * distinct, the printed names tell exactly which buttons were listed.
   */
  function Names(bs: seq<Button>): (ns: seq<string>)
    ensures |ns| == |bs|
    ensures forall i :: 0 <= i < |bs| ==> ns[i] == Name(bs[i])
    ensures forall b :: Name(b) in ns <==> b in bs
  {
    var ns := seq(|bs|, i requires 0 <= i < |bs| => Name(bs[i]));
    NamedMembers(bs, ns);
    ns
  }

  /** `strings.Join(xs, ", ")`. */
  function Join(xs: seq<string>): string
  {
    if |xs| == 0 then ""
    else if |xs| == 1 then xs[0]
    else xs[0] + ", " + Join(xs[1..])
  }

  /** The format `&Sixaxis{L[%s] R[%s] dpad[%s] buttons[%s]}` filled in. */
  function Line(left: string, right: string, dpad: string, buttons: string): string
  {
    "&Sixaxis{L[" + left + "] R[" + right + "] dpad[" + dpad + "] buttons[" + buttons + "]}"
  }
}
