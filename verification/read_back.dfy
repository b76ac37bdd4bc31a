/**
 * A reader for the text `SA.String` prints. Reading a rendered snapshot gives
 * the snapshot back, so the printed line loses no button or axis.
 */
module ReadBack {
  import opened Wrappers
  import opened InputEvent
  import opened Sixaxis
  import opened Display

  /** The text after the literal `lit`, when `t` starts with it. */
  function Expect(lit: string, t: string): (r: Option<string>)
    ensures r.Some? <==> lit <= t
    ensures r.Some? ==> t == lit + r.value
  {
    if lit <= t then Some(t[|lit|..]) else None
  }

  lemma ExpectLit(lit: string, rest: string)
    ensures Expect(lit, lit + rest) == Some(rest)
  {
    assert lit <= lit + rest;
    assert (lit + rest)[|lit|..] == rest;
  }

  /** The length of the run of digits at the start of `t`. */
  function DigitRun(t: string): (k: nat)
    ensures k <= |t| && AllDigits(t[..k])
    ensures k < |t| ==> !IsDigit(t[k])
  {
    if |t| == 0 || !IsDigit(t[0]) then 0
    else
      var k := 1 + DigitRun(t[1..]);
      assert forall i :: 1 <= i < k ==> t[i] == t[1..][i - 1];
      k
  }

  lemma {:induction false} DigitRunOf(ds: string, rest: string)
    requires AllDigits(ds)
    requires |rest| == 0 || !IsDigit(rest[0])
    ensures DigitRun(ds + rest) == |ds|
  {
    if |ds| > 0 {
      assert (ds + rest)[1..] == ds[1..] + rest;
      DigitRunOf(ds[1..], rest);
    }
  }

  /** Reads a run of digits as a magnitude. */
  function ParseMagnitude(u: string): Option<(nat, string)>
  {
    var k := DigitRun(u);
    if k == 0 then None else Some((Value(u[..k]), u[k..]))
  }

  lemma ParseMagnitudeOf(ds: string, rest: string)
    requires |ds| > 0 && AllDigits(ds)
    requires |rest| == 0 || !IsDigit(rest[0])
    ensures ParseMagnitude(ds + rest) == Some((Value(ds), rest))
  {
    DigitRunOf(ds, rest);
    assert (ds + rest)[..|ds|] == ds;
    assert (ds + rest)[|ds|..] == rest;
  }

  /** Reads a sign and a run of digits, as `%+04d` prints them. */
  function ParseSigned(t: string): Option<(int, string)>
  {
    if |t| == 0 || (t[0] != '+' && t[0] != '-') then None
    else
      var m :- ParseMagnitude(t[1..]);
      var n: int := m.0;
      Some((if t[0] == '-' then -n else n, m.1))
  }

  /** Reading what `%+04d` printed gives the number back, provided no digit follows. */
  lemma ParseFormatSigned(v: int, rest: string)
    requires |rest| == 0 || !IsDigit(rest[0])
    ensures ParseSigned(FormatSigned(v) + rest) == Some((v, rest))
  {
    var f := FormatSigned(v);
    var ds := f[1..];
    SplitHead(f, rest);
    ParseMagnitudeOf(ds, rest);
    ParseSignedOf(f[0], ds + rest);
  }

  lemma SplitHead(f: string, rest: string)
    requires |f| > 0
    ensures f + rest == [f[0]] + (f[1..] + rest)
  {
  }

  lemma ParseSignedOf(c: char, u: string)
    requires c == '+' || c == '-'
    ensures ParseSigned([c] + u) ==
      match ParseMagnitude(u)
      case None => None
      case Some((m, rest)) => Some((if c == '-' then -(m as int) else m as int, rest))
  {
    assert ([c] + u)[1..] == u;
  }

  function ParseI32(t: string): Option<(I32, string)>
  {
    var p :- ParseSigned(t);
    if -0x8000_0000 <= p.0 < 0x8000_0000 then Some((p.0 as I32, p.1)) else None
  }

  /** Reads `AnalogStick.String`. */
  function ParseStick(t: string): Option<(Stick, string)>
  {
    var x :- ParseI32(t);
    var t1 :- Expect(", ", x.1);
    var y :- ParseI32(t1);
    Some((Stick(x.0, y.0), y.1))
  }

  lemma ParseI32Format(v: I32, rest: string)
    requires |rest| == 0 || !IsDigit(rest[0])
    ensures ParseI32(FormatSigned(v) + rest) == Some((v, rest))
  {
    ParseFormatSigned(v, rest);
  }

  lemma ParseStickString(st: Stick, rest: string)
    requires |rest| == 0 || !IsDigit(rest[0])
    ensures ParseStick(StickString(st) + rest) == Some((st, rest))
  {
    var fx, fy := FormatSigned(st.x), FormatSigned(st.y);
    Assoc(fx + ", ", fy, rest);
    Assoc(fx, ", ", fy + rest);
    ParseStickOf(st.x, st.y, rest);
  }

  lemma ParseStickOf(x: I32, y: I32, rest: string)
    requires |rest| == 0 || !IsDigit(rest[0])
    ensures ParseStick(FormatSigned(x) + (", " + (FormatSigned(y) + rest))) == Some((Stick(x, y), rest))
  {
    var fy := FormatSigned(y) + rest;
    ParseI32Format(x, ", " + fy);
    ExpectLit(", ", fy);
    ParseI32Format(y, rest);
  }

  /** Position of the first `x` in `t`. */
  function IndexOf(t: string, x: char): (r: Option<nat>)
    ensures r.None? <==> x !in t
    ensures r.Some? ==> r.value < |t| && t[r.value] == x && x !in t[..r.value]
  {
    if |t| == 0 then None
    else if t[0] == x then Some(0)
    else
      match IndexOf(t[1..], x)
      case None => None
      case Some(k) =>
        assert t[..k + 1] == [t[0]] + t[1..][..k];
        Some(k + 1)
  }

  lemma IndexOfFirst(a: string, x: char, b: string)
    requires x !in a
    ensures IndexOf(a + [x] + b, x) == Some(|a|)
  {
    var t := a + [x] + b;
    assert t[|a|] == x;
    assert t[..|a|] == a;
  }

  /** Splits a `", "`-joined list of names; none for a stray separator. */
  function SplitNames(c: string): Option<seq<string>>
    decreases |c|
  {
    if |c| == 0 then Some([])
    else
      match IndexOf(c, ',')
      case None => Some([c])
      case Some(k) =>
        if k + 2 < |c| && c[k + 1] == ' ' then
          var tail :- SplitNames(c[k + 2..]);
          if |tail| == 0 then None else Some([c[..k]] + tail)
        else None
  }

  /** A name the list reader can recover: non-empty, and free of `,` and `]`. */
  predicate Plain(n: string) {
    |n| > 0 && ',' !in n && ']' !in n
  }

  lemma {:induction false} JoinChars(xs: seq<string>, x: char)
    requires x != ',' && x != ' '
    requires forall i :: 0 <= i < |xs| ==> x !in xs[i]
    ensures x !in Join(xs)
  {
    if |xs| > 1 {
      JoinChars(xs[1..], x);
    }
  }

  lemma {:induction false} JoinNonEmpty(xs: seq<string>)
    requires |xs| > 0 && |xs[0]| > 0
    ensures |Join(xs)| > 0
  {
  }

  /** Splitting a list joined with `", "` gives the names back. */
  lemma {:induction false} SplitJoin(xs: seq<string>)
    requires forall i :: 0 <= i < |xs| ==> Plain(xs[i])
    ensures SplitNames(Join(xs)) == Some(xs)
  {
    if |xs| == 1 {
      assert Join(xs) == xs[0];
      assert [xs[0]] == xs;
    } else if |xs| > 1 {
      assert Plain(xs[1]);
      JoinNonEmpty(xs[1..]);
      SplitJoin(xs[1..]);
      SplitCons(xs[0], Join(xs[1..]), xs[1..]);
      assert [xs[0]] + xs[1..] == xs;
    }
  }

  /** One name, a separator, and a non-empty rest of the list. */
  lemma SplitCons(x: string, tail: string, ys: seq<string>)
    requires Plain(x) && |tail| > 0 && |ys| > 0
    requires SplitNames(tail) == Some(ys)
    ensures SplitNames(x + ", " + tail) == Some([x] + ys)
  {
    var c := x + ", " + tail;
    var k := |x|;
    assert IndexOf(c, ',') == Some(k) by {
      assert c == x + [','] + (" " + tail);
      IndexOfFirst(x, ',', " " + tail);
    }
    SeparatorAt(x, tail);
  }

  lemma SeparatorAt(x: string, tail: string)
    ensures var c := x + ", " + tail;
      |x| + 2 <= |c| && c[|x| + 1] == ' ' && c[|x| + 2..] == tail && c[..|x|] == x
  {
  }

  /** Reads a name list up to and including its closing `]`. */
  function ParseList(t: string): Option<(seq<string>, string)>
  {
    var k :- IndexOf(t, ']');
    var names :- SplitNames(t[..k]);
    Some((names, t[k + 1..]))
  }

  lemma ParseJoined(xs: seq<string>, rest: string)
    requires forall i :: 0 <= i < |xs| ==> Plain(xs[i])
    ensures ParseList(Join(xs) + "]" + rest) == Some((xs, rest))
  {
    JoinChars(xs, ']');
    IndexOfFirst(Join(xs), ']', rest);
    var t := Join(xs) + "]" + rest;
    assert t[..|Join(xs)|] == Join(xs);
    assert t[|Join(xs)| + 1..] == rest;
    SplitJoin(xs);
  }

  const AllButtons: seq<Button> := DpadOrder + ButtonOrder

  /** The held set named by a d-pad list and a buttons list. */
  function HeldFrom(dpad: seq<string>, others: seq<string>): set<Button>
  {
    set b | b in AllButtons && if IsDpad(b) then Name(b) in dpad else Name(b) in others
  }

  /** Reads the two sticks, up to the opening of the d-pad list. */
  function ParseSticks(t: string): Option<(Stick, Stick, string)>
  {
    var left :- ParseStick(t);
    var t1 :- Expect("] R[", left.1);
    var right :- ParseStick(t1);
    var t2 :- Expect("] dpad[", right.1);
    Some((left.0, right.0, t2))
  }

  /** Reads the d-pad and buttons lists up to the end of the text. */
  function ParseLists(t: string): Option<set<Button>>
  {
    var dpad :- ParseList(t);
    var t1 :- Expect(" buttons[", dpad.1);
    var others :- ParseList(t1);
    if others.1 == "}" then Some(HeldFrom(dpad.0, others.0)) else None
  }

  /** Reads the text `SA.String` prints back into a snapshot. */
  function ParseRender(t: string): Option<State>
  {
    var t1 :- Expect("&Sixaxis{L[", t);
    var sticks :- ParseSticks(t1);
    var held :- ParseLists(sticks.2);
    Some(State(held, sticks.0, sticks.1))
  }

  lemma ParseSticksOf(l: Stick, r: Stick, rest: string)
    ensures ParseSticks(StickString(l) + ("] R[" + (StickString(r) + ("] dpad[" + rest))))
            == Some((l, r, rest))
  {
    var r2 := StickString(r) + ("] dpad[" + rest);
    ParseStickString(l, "] R[" + r2);
    ExpectLit("] R[", r2);
    ParseStickString(r, "] dpad[" + rest);
    ExpectLit("] dpad[", rest);
  }

  lemma ParseListsOf(dn: seq<string>, bn: seq<string>)
    requires forall i :: 0 <= i < |dn| ==> Plain(dn[i])
    requires forall i :: 0 <= i < |bn| ==> Plain(bn[i])
    ensures ParseLists(Join(dn) + ("] buttons[" + (Join(bn) + "]}"))) == Some(HeldFrom(dn, bn))
  {
    var r4 := Join(bn) + "]" + "}";
    assert Join(bn) + "]}" == r4;
    assert Join(dn) + ("] buttons[" + (Join(bn) + "]}")) == Join(dn) + "]" + (" buttons[" + r4);
    ParseJoined(dn, " buttons[" + r4);
    ExpectLit(" buttons[", r4);
    ParseJoined(bn, "}");
  }

  lemma NamesPlain(bs: seq<Button>)
    ensures forall i :: 0 <= i < |Names(bs)| ==> Plain(Names(bs)[i])
  {
  }

  lemma HeldFromLists(s: State)
    ensures HeldFrom(Names(DpadHeld(s)), Names(OtherHeld(s))) == s.held
  {
    var h := HeldFrom(Names(DpadHeld(s)), Names(OtherHeld(s)));
    forall b ensures b in h <==> b in s.held {
      AllButtonsComplete(b);
    }
  }

  lemma AllButtonsComplete(b: Button)
    ensures b in AllButtons
  {
    match b
    case Up => assert AllButtons[0] == b;
    case Down => assert AllButtons[1] == b;
    case Left => assert AllButtons[2] == b;
    case Right => assert AllButtons[3] == b;
    case Select => assert AllButtons[4] == b;
    case L3 => assert AllButtons[5] == b;
    case R3 => assert AllButtons[6] == b;
    case Start => assert AllButtons[7] == b;
    case L2 => assert AllButtons[8] == b;
    case R2 => assert AllButtons[9] == b;
    case L1 => assert AllButtons[10] == b;
    case R1 => assert AllButtons[11] == b;
    case Triangle => assert AllButtons[12] == b;
    case Circle => assert AllButtons[13] == b;
    case Cross => assert AllButtons[14] == b;
    case Square => assert AllButtons[15] == b;
    case PS => assert AllButtons[16] == b;
  }

  lemma Assoc(a: string, b: string, c: string)
    ensures a + b + c == a + (b + c)
  {
  }

  /** Regroups the nine pieces of the printed line to the right, the order the reader consumes them. */
  lemma Regroup(p1: string, a: string, p2: string, b: string, p3: string,
                c: string, p4: string, d: string, p5: string)
    ensures p1 + a + p2 + b + p3 + c + p4 + d + p5
         == p1 + (a + (p2 + (b + (p3 + (c + (p4 + (d + p5)))))))
  {
    var t8 := d + p5;
    var t7 := p4 + t8;
    var t6 := c + t7;
    var t5 := p3 + t6;
    var t4 := b + t5;
    var t3 := p2 + t4;
    var t2 := a + t3;
    Assoc(p1 + a + p2 + b + p3 + c + p4, d, p5);
    Assoc(p1 + a + p2 + b + p3 + c, p4, t8);
    Assoc(p1 + a + p2 + b + p3, c, t7);
    Assoc(p1 + a + p2 + b, p3, t6);
    Assoc(p1 + a + p2, b, t5);
    Assoc(p1 + a, p2, t4);
    Assoc(p1, a, t3);
  }

  lemma LineShape(s: State)
    ensures Line(StickString(s.leftStick), StickString(s.rightStick),
                 Join(Names(DpadHeld(s))), Join(Names(OtherHeld(s)))) ==
      "&Sixaxis{L[" + (StickString(s.leftStick) + ("] R[" + (StickString(s.rightStick) + ("] dpad[" +
        (Join(Names(DpadHeld(s))) + ("] buttons[" + (Join(Names(OtherHeld(s))) + "]}")))))))
  {
    Regroup("&Sixaxis{L[", StickString(s.leftStick), "] R[", StickString(s.rightStick), "] dpad[",
            Join(Names(DpadHeld(s))), "] buttons[", Join(Names(OtherHeld(s))), "]}");
  }

  /** Reading the line filled in from a snapshot gives the snapshot back. */
  lemma LineRoundTrip(s: State)
    ensures ParseRender(Line(StickString(s.leftStick), StickString(s.rightStick),
                             Join(Names(DpadHeld(s))), Join(Names(OtherHeld(s))))) == Some(s)
  {
    var dn := Names(DpadHeld(s));
    var bn := Names(OtherHeld(s));
    NamesPlain(DpadHeld(s));
    NamesPlain(OtherHeld(s));
    var lists := Join(dn) + ("] buttons[" + (Join(bn) + "]}"));
    var sticks := StickString(s.leftStick) + ("] R[" + (StickString(s.rightStick) + ("] dpad[" + lists)));
    LineShape(s);
    ExpectLit("&Sixaxis{L[", sticks);
    ParseSticksOf(s.leftStick, s.rightStick, lists);
    ParseListsOf(dn, bn);
    HeldFromLists(s);
  }
}
