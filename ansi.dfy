/**
 * An abstract view of the terminal-styling library the icon painter relies on
 * (`ansi_term`): colours, styles and painted strings. Only what the painter
 * observes is kept; the escape bytes a style is rendered to are not modelled.
 */
module Ansi {
  import opened Options

  newtype u8 = x: int | 0 <= x < 256

  /** A terminal colour: the eight named ones, a 256-colour index or a 24-bit colour. */
  datatype Colour =
    | Black | Red | Green | Yellow | Blue | Purple | Cyan | White
    | Fixed(index: u8)
    | RGB(r: u8, g: u8, b: u8)

  /** A text style: optional foreground and background colours and the attribute flags. */
  datatype Style = Style(
    foreground: Option<Colour>,
    background: Option<Colour>,
    isBold: bool,
    isDimmed: bool,
    isItalic: bool,
    isUnderline: bool,
    isBlink: bool,
    isReverse: bool,
    isHidden: bool,
    isStrikethrough: bool)

  /** The default style: no colour and no attribute, painted without any escape sequence. */
  const Plain: Style := Style(None, None, false, false, false, false, false, false, false, false)

  /** The style made from a colour alone: that foreground and nothing else. */
  function FromColour(c: Colour): (s: Style)
    ensures s.foreground == Some(c)
    ensures s.(foreground := None) == Plain
  {
    Plain.(foreground := Some(c))
  }

  /** A piece of text together with the style it is painted in. */
  datatype Painted = Painted(style: Style, text: string)

  /** What a terminal shows of a sequence of painted pieces, styles aside. */
  function Text(pieces: seq<Painted>): (shown: string)
    ensures forall i :: 0 <= i < |pieces| ==> |pieces[i].text| <= |shown|
    ensures shown == [] <==> forall i :: 0 <= i < |pieces| ==> pieces[i].text == []
  {
    if pieces == [] then [] else pieces[0].text + Text(pieces[1..])
  }

  /** Showing two runs of pieces one after the other shows their texts one after the other. */
  lemma {:induction false} TextAppend(a: seq<Painted>, b: seq<Painted>)
    ensures Text(a + b) == Text(a) + Text(b)
  {
    if a == [] {
      assert a + b == b;
    } else {
      assert (a + b)[0] == a[0] && (a + b)[1..] == a[1..] + b;
      TextAppend(a[1..], b);
    }
  }
}
