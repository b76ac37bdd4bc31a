/** Concrete lines the controller prints, worked out from the model. */
module Scenarios {
  import opened InputEvent
  import opened Sixaxis
  import opened Display
  import opened Printout

  const T0: TimeVal := TimeVal(0, 0)

  lemma FormatZero()
    ensures FormatSigned(0) == "+000"
  {
    assert Digits(0) == "0";
  }

  lemma FormatMinusFive()
    ensures FormatSigned(-5) == "-005"
  {
    assert Digits(5) == "5";
  }

  lemma FormatWide()
    ensures FormatSigned(-1234) == "-1234"
  {
    assert Digits(12) == "12";
    assert Digits(123) == "123";
    assert Digits(1234) == "1234";
  }

  /** A fresh controller prints both sticks centred and both lists empty. */
  lemma RenderNew()
    ensures Render(New()) == Line("+000, +000", "+000, +000", "", "")
    ensures Render(New()) == "&Sixaxis{L[+000, +000] R[+000, +000] dpad[] buttons[]}"
  {
    FormatZero();
    assert StickString(Stick(0, 0)) == "+000, +000";
    IncreasingUnique(DpadHeld(New()), []);
    IncreasingUnique(OtherHeld(New()), []);
    assert Join(Names([])) == "";
    IdleLine();
  }

  lemma IdleLine()
    ensures Line("+000, +000", "+000, +000", "", "")
         == "&Sixaxis{L[+000, +000] R[+000, +000] dpad[] buttons[]}"
  {
  }

  /** Pressing select, then pushing the left stick to x = -5. */
  lemma SelectThenLeftX()
    ensures Update(Update(New(), Event(T0, 1, 288, 1)), Event(T0, 3, 0, -5))
         == State({Select}, Stick(-5, 0), Stick(0, 0))
  {
    ButtonEvent(New(), Event(T0, 1, 288, 1), Select);
    AxisEvent(Update(New(), Event(T0, 1, 288, 1)), Event(T0, 3, 0, -5), LeftX);
  }

  /** Pressing select and pushing the left stick to x = -5 shows in the printed line. */
  lemma RenderSelectAndLeftX()
    ensures Render(Update(Update(New(), Event(T0, 1, 288, 1)), Event(T0, 3, 0, -5)))
         == Line("-005, +000", "+000, +000", "", "select")
  {
    SelectThenLeftX();
    RenderSelectState();
  }

  lemma RenderSelectState()
    ensures Render(State({Select}, Stick(-5, 0), Stick(0, 0))) == Line("-005, +000", "+000, +000", "", "select")
  {
    var s := State({Select}, Stick(-5, 0), Stick(0, 0));
    FormatZero();
    FormatMinusFive();
    assert StickString(Stick(-5, 0)) == "-005, +000";
    assert StickString(Stick(0, 0)) == "+000, +000";
    SelectLists(s);
    assert Names([Select]) == ["select"];
  }

  lemma SelectLists(s: State)
    requires s.held == {Select}
    ensures DpadHeld(s) == []
    ensures OtherHeld(s) == [Select]
  {
    IncreasingUnique(DpadHeld(s), []);
    IncreasingUnique(OtherHeld(s), [Select]);
  }

  /** Several held buttons are listed in the fixed order, joined with ", ". */
  lemma RenderSeveral()
    ensures Render(State({PS, Up, Cross, Right, Select}, Stick(0, 0), Stick(0, 0)))
         == Line("+000, +000", "+000, +000", "up, right", "select, cross, PS")
  {
    var s := State({PS, Up, Cross, Right, Select}, Stick(0, 0), Stick(0, 0));
    FormatZero();
    assert StickString(Stick(0, 0)) == "+000, +000";
    SeveralDpad(s);
    SeveralOthers(s);
    NamesExamples();
    JoinExamples();
  }

  lemma SeveralDpad(s: State)
    requires s.held == {PS, Up, Cross, Right, Select}
    ensures DpadHeld(s) == [Up, Right]
  {
    SeveralDpadMembers(s);
    IncreasingUnique(DpadHeld(s), [Up, Right]);
  }

  lemma SeveralDpadMembers(s: State)
    requires s.held == {PS, Up, Cross, Right, Select}
    ensures forall b :: b in [Up, Right] <==> IsDpad(b) && Pressed(s, b)
  {
    forall b ensures b in [Up, Right] <==> IsDpad(b) && Pressed(s, b) {
      match b
      case Up =>
      case Right =>
      case _ =>
    }
  }

  lemma SeveralOthers(s: State)
    requires s.held == {PS, Up, Cross, Right, Select}
    ensures OtherHeld(s) == [Select, Cross, PS]
  {
    SeveralOthersMembers(s);
    IncreasingUnique(OtherHeld(s), [Select, Cross, PS]);
  }

  lemma SeveralOthersMembers(s: State)
    requires s.held == {PS, Up, Cross, Right, Select}
    ensures forall b :: b in [Select, Cross, PS] <==> !IsDpad(b) && Pressed(s, b)
  {
    forall b ensures b in [Select, Cross, PS] <==> !IsDpad(b) && Pressed(s, b) {
      match b
      case Select =>
      case Cross =>
      case PS =>
      case _ =>
    }
  }

  lemma NamesExamples()
    ensures Names([Up, Right]) == ["up", "right"]
    ensures Names([Select, Cross, PS]) == ["select", "cross", "PS"]
  {
  }

  lemma JoinExamples()
    ensures Join(["up", "right"]) == "up, right"
    ensures Join(["select", "cross", "PS"]) == "select, cross, PS"
  {
    assert Join(["PS"]) == "PS";
    assert Join(["cross", "PS"]) == "cross, PS";
    assert Join(["right"]) == "right";
  }
}
