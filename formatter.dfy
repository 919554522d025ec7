/**
 * The formatter, `MainWindow::toMessage`: the extractor's triple becomes
 * either the three-line summary or the fixed "not a valid JSON document"
 * message. It tests only the first component against -1, so a parsed
 * document with a negative count is reported as invalid too.
 */
module Formatter {
  import opened Wrappers
  import Decimal

  const InvalidText := "\nThis is not a valid JSON document!"
  const ElementsLabel := "\nNumber of Elements: "
  const XLabel := "\nCombined value of X: "
  const YLabel := "\nCombined value of Y: "

  /** The display message for the triple (count, combined x, combined y). */
  function ToMessage(t: (int, int, int)): (m: string)
    ensures m == InvalidText <==> t.0 <= -1
    ensures t.0 > -1 ==> ElementsLabel <= m
  {
    if t.0 > -1 then
      ElementsLabel + Decimal.IntToDecimal(t.0)
      + XLabel + Decimal.IntToDecimal(t.1)
      + YLabel + Decimal.IntToDecimal(t.2)
    else
      InvalidText
  }

  /** What a reader of the display learns from one message. */
  datatype Reading = Report(count: int, sumX: int, sumY: int) | NotValid | Unreadable

  /** The number written right after `caption` at the start of `s`, and the text after it. */
  function ReadLabelled(caption: string, s: string): Option<(int, string)> {
    if caption <= s then Decimal.ReadInt(s[|caption|..]) else None
  }

  /** Reads a message back: the reference for what `ToMessage` tells the user. */
  function ReadMessage(m: string): Reading {
    if m == InvalidText then NotValid
    else match ReadLabelled(ElementsLabel, m)
      case None => Unreadable
      case Some((n, afterCount)) =>
        match ReadLabelled(XLabel, afterCount)
        case None => Unreadable
        case Some((x, afterX)) =>
          match ReadLabelled(YLabel, afterX)
          case None => Unreadable
          case Some((y, afterY)) => if afterY == [] then Report(n, x, y) else Unreadable
  }

  lemma ReadLabelledOf(caption: string, i: int, rest: string)
    requires Decimal.StopsNumber(rest)
    ensures ReadLabelled(caption, caption + Decimal.IntToDecimal(i) + rest) == Some((i, rest))
  {
    var s := caption + Decimal.IntToDecimal(i) + rest;
    assert caption <= s;
    assert s[|caption|..] == Decimal.IntToDecimal(i) + rest;
    Decimal.ReadIntOfIntToDecimal(i, rest);
  }

  /**
   * The message carries exactly the triple when its count is above -1, and
   * the invalid-document verdict otherwise.
   */
  lemma ReadMessageOfToMessage(t: (int, int, int))
    ensures ReadMessage(ToMessage(t)) == if t.0 > -1 then Report(t.0, t.1, t.2) else NotValid
  {
    if t.0 > -1 {
      var m := ToMessage(t);
      var a, b, c := Decimal.IntToDecimal(t.0), Decimal.IntToDecimal(t.1), Decimal.IntToDecimal(t.2);
      var tailY := YLabel + c;
      var tailX := XLabel + b + tailY;
      assert m == ElementsLabel + a + tailX;
      assert Decimal.StopsNumber(tailX) by { assert tailX[0] == XLabel[0]; }
      assert Decimal.StopsNumber(tailY) by { assert tailY[0] == YLabel[0]; }
      ReadLabelledOf(ElementsLabel, t.0, tailX);
      ReadLabelledOf(XLabel, t.1, tailY);
      assert tailY == YLabel + c + [];
      ReadLabelledOf(YLabel, t.2, []);
    }
  }

  /** Two summaries that read the same came from the same triple. */
  lemma ToMessageInjective(t: (int, int, int), u: (int, int, int))
    requires t.0 > -1 && u.0 > -1
    ensures ToMessage(t) == ToMessage(u) <==> t == u
  {
    ReadMessageOfToMessage(t);
    ReadMessageOfToMessage(u);
  }

  lemma SpecimenInvalid()
    ensures ToMessage((-1, -1, -1)) == "\nThis is not a valid JSON document!"
  {
  }

  lemma SpecimenSummary()
    ensures ToMessage((2, 4, 6)) == "\nNumber of Elements: 2\nCombined value of X: 4\nCombined value of Y: 6"
  {
    assert ToMessage((2, 4, 6)) == ElementsLabel + "2" + XLabel + "4" + YLabel + "6" by {
      SmallNumerals();
    }
    SpecimenSummaryText();
  }

  lemma SmallNumerals()
    ensures Decimal.IntToDecimal(2) == "2" && Decimal.IntToDecimal(4) == "4" && Decimal.IntToDecimal(6) == "6"
  {
  }

  lemma SpecimenSummaryText()
    ensures ElementsLabel + "2" + XLabel + "4" + YLabel + "6"
         == "\nNumber of Elements: 2\nCombined value of X: 4\nCombined value of Y: 6"
  {
    assert ElementsLabel + "2" == "\nNumber of Elements: 2";
    assert XLabel + "4" == "\nCombined value of X: 4";
    assert YLabel + "6" == "\nCombined value of Y: 6";
    assert "\nNumber of Elements: 2" + "\nCombined value of X: 4" == "\nNumber of Elements: 2\nCombined value of X: 4";
  }
}
