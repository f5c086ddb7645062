/**
 * The caption compositor: where each caption line of a meme or poster goes.
 *
 * A caption entry is a text with the font it is drawn in. Fonts are opaque
 * (type parameter F); the font library's measurement of a string is the
 * parameter `measure`, which gives the string's bounding box. Drawing is
 * recorded as a sequence of draw commands on the image, in the order they
 * are issued, instead of as pixels.
 */
module Compositor {
  import opened Text

  /** A colour as the colour picker hands it over (a "#RRGGBB" string). */
  type Colour = string

  /** The bounding box (x0, y0, x1, y1) the font library reports for a string. */
  datatype Box = Box(x0: int, y0: int, x1: int, y1: int) {
    function Width(): int { x1 - x0 }
    function Height(): int { y1 - y0 }
  }

  /** One caption line: its text and the font it is drawn in. */
  datatype Entry<F> = Entry(text: string, font: F)

  /** One text stamp on the image: position, string, font and fill colour. */
  datatype Command<F> = Draw(x: int, y: int, text: string, font: F, fill: Colour)

  /** An image: its size and the stamps drawn on top of its original pixels. */
  datatype Image<F> = Image(width: nat, height: nat, drawn: seq<Command<F>>)

  /** The vertical space left between two consecutive caption lines. */
  const LineGap: int := 20

  /** The outline is stamped at every offset -Reach..Reach on both axes. */
  const Reach: int := 3

  /** The number of outline stamps per line, one per offset pair. */
  const OutlineStamps: nat := 49

  /** The number of stamps per drawn line: the outline, then the text itself. */
  const StampsPerLine: nat := 50

  /** The named starting cursors; a name missing here starts at 40. */
  function YPositions(height: nat): (m: map<string, int>)
    ensures m.Keys == {"Top", "Center", "Bottom"}
  {
    map["Top" := 40, "Center" := height / 2 - 50, "Bottom" := height - 150]
  }

  /** The vertical cursor the first caption line starts at. */
  function InitialY(position: string, height: nat): (y: int)
    ensures position == "Top" ==> y == 40
    ensures position == "Center" ==> 2 * (y + 50) <= height < 2 * (y + 50) + 2
    ensures position == "Bottom" ==> y == height - 150
    ensures position !in {"Top", "Center", "Bottom"} ==> y == 40
  {
    var positions := YPositions(height);
    if position in positions then positions[position] else 40
  }

  /** The left edge that centres a text of the given width: floor((imageWidth - textWidth) / 2). */
  function CenterX(imageWidth: int, textWidth: int): (x: int)
    ensures 2 * x <= imageWidth - textWidth < 2 * x + 2
    ensures x <= (imageWidth - textWidth) - x <= x + 1
  {
    (imageWidth - textWidth) / 2
  }

  /** A text wider than the image starts left of the image's edge. */
  lemma CenterXNegative(imageWidth: int, textWidth: int)
    requires textWidth > imageWidth
    ensures CenterX(imageWidth, textWidth) < 0
  {
  }

  /** The box of an entry's text, measured upper-cased in the entry's font. */
  function BoxOf<F>(e: Entry<F>, measure: (string, F) -> Box): Box
  {
    measure(Upper(e.text), e.font)
  }

  /** The left edge at which an entry is drawn on an image of the given width. */
  function XOf<F>(e: Entry<F>, imageWidth: int, measure: (string, F) -> Box): int
  {
    CenterX(imageWidth, BoxOf(e, measure).Width())
  }

  /** The 7x7 outline stamps around (x, y), the horizontal offset varying slowest. */
  function Outline<F>(x: int, y: int, text: string, font: F, colour: Colour): (s: seq<Command<F>>)
    ensures |s| == OutlineStamps
  {
    seq(49, k requires 0 <= k < 49 => Draw(x + k / 7 - Reach, y + k % 7 - Reach, text, font, colour))
  }

  /** Fixing both offsets in -3..3 picks exactly one outline stamp, the one at that offset. */
  lemma OutlineAt<F>(x: int, y: int, text: string, font: F, colour: Colour, dx: int, dy: int)
    requires -Reach <= dx <= Reach && -Reach <= dy <= Reach
    ensures 0 <= 7 * (dx + Reach) + (dy + Reach) < OutlineStamps
    ensures Outline(x, y, text, font, colour)[7 * (dx + Reach) + (dy + Reach)]
         == Draw(x + dx, y + dy, text, font, colour)
  {
    var k := 7 * (dx + Reach) + (dy + Reach);
    DivMod7(dx + Reach, dy + Reach);
    assert k / 7 == dx + Reach && k % 7 == dy + Reach;
  }

  lemma DivMod7(a: int, b: int)
    requires 0 <= a < 7 && 0 <= b < 7
    ensures (7 * a + b) / 7 == a && (7 * a + b) % 7 == b
  {
  }

  /** Every outline stamp has the outline colour and lies within the 7x7 square; no two coincide. */
  lemma OutlineShape<F>(x: int, y: int, text: string, font: F, colour: Colour)
    ensures forall k :: 0 <= k < OutlineStamps ==>
      var c := Outline(x, y, text, font, colour)[k];
      c.fill == colour && c.text == text && c.font == font
      && x - Reach <= c.x <= x + Reach && y - Reach <= c.y <= y + Reach
    ensures forall i, j :: 0 <= i < j < OutlineStamps ==>
      Outline(x, y, text, font, colour)[i].x != Outline(x, y, text, font, colour)[j].x
      || Outline(x, y, text, font, colour)[i].y != Outline(x, y, text, font, colour)[j].y
  {
    var s := Outline(x, y, text, font, colour);
    forall i, j | 0 <= i < j < OutlineStamps
      ensures s[i].x != s[j].x || s[i].y != s[j].y
    {
      assert i == 7 * (i / 7) + i % 7 && j == 7 * (j / 7) + j % 7;
    }
  }

  /** The stamps for one text: the full outline, then the text in its own colour on top. */
  function Stamp<F>(x: int, y: int, text: string, font: F, fill: Colour, outline: Colour): (s: seq<Command<F>>)
    ensures |s| == StampsPerLine
    ensures s[StampsPerLine - 1] == Draw(x, y, text, font, fill)
  {
    Outline(x, y, text, font, outline) + [Draw(x, y, text, font, fill)]
  }

  /** The stamps one entry contributes at cursor y: none when its text is empty. */
  function DrawEntry<F>(e: Entry<F>, imageWidth: int, y: int, fill: Colour, outline: Colour,
                        measure: (string, F) -> Box): (s: seq<Command<F>>)
    ensures e.text == "" <==> s == []
    ensures e.text != "" ==>
              |s| == StampsPerLine
              && s[StampsPerLine - 1] == Draw(XOf(e, imageWidth, measure), y, Upper(e.text), e.font, fill)
  {
    if e.text == "" then []
    else Stamp(XOf(e, imageWidth, measure), y, Upper(e.text), e.font, fill, outline)
  }

  /** The cursor after an entry: unchanged for an empty text, else its height plus the gap lower. */
  function Advance<F>(e: Entry<F>, y: int, measure: (string, F) -> Box): (next: int)
    ensures e.text == "" ==> next == y
    ensures e.text != "" && BoxOf(e, measure).Height() >= 0 ==> next >= y + LineGap
  {
    if e.text == "" then y else y + BoxOf(e, measure).Height() + LineGap
  }

  /** All stamps for the entries, in order, starting with the cursor at y. */
  function Layout<F>(texts: seq<Entry<F>>, imageWidth: int, y: int, fill: Colour, outline: Colour,
                     measure: (string, F) -> Box): (s: seq<Command<F>>)
    ensures |s| == StampsPerLine * |NonEmpty(texts)|
    decreases |texts|
  {
    if texts == [] then []
    else DrawEntry(texts[0], imageWidth, y, fill, outline, measure)
         + Layout(texts[1..], imageWidth, Advance(texts[0], y, measure), fill, outline, measure)
  }

  /** The entries that have a text, in their original order. */
  function NonEmpty<F>(texts: seq<Entry<F>>): (r: seq<Entry<F>>)
    ensures |r| <= |texts|
  {
    if texts == [] then []
    else (if texts[0].text == "" then [] else [texts[0]]) + NonEmpty(texts[1..])
  }

  /** The entries kept are exactly the entries of the list that have a text. */
  lemma {:induction false} NonEmptyMembers<F>(texts: seq<Entry<F>>)
    ensures forall i :: 0 <= i < |NonEmpty(texts)| ==>
      NonEmpty(texts)[i].text != "" && NonEmpty(texts)[i] in texts
    ensures forall i :: 0 <= i < |texts| && texts[i].text != "" ==> texts[i] in NonEmpty(texts)
  {
    if texts != [] {
      NonEmptyMembers(texts[1..]);
      var ne := NonEmpty(texts);
      var tail := NonEmpty(texts[1..]);
      if texts[0].text == "" {
        assert ne == tail;
      } else {
        assert ne == [texts[0]] + tail;
      }
      forall i | 0 <= i < |ne| ensures ne[i].text != "" && ne[i] in texts {
        if texts[0].text != "" && i == 0 {
        } else {
          var j := if texts[0].text == "" then i else i - 1;
          assert ne[i] == tail[j];
          assert tail[j] in texts[1..];
        }
      }
      forall i | 0 <= i < |texts| && texts[i].text != "" ensures texts[i] in ne {
        if i > 0 {
          assert texts[i] == texts[1..][i - 1];
        }
      }
    }
  }

  /** The cursor at which each entry with a text starts, in order. */
  function Starts<F>(texts: seq<Entry<F>>, y: int, measure: (string, F) -> Box): (starts: seq<int>)
    ensures |starts| == |NonEmpty(texts)|
    ensures starts != [] ==> starts[0] == y
    decreases |texts|
  {
    if texts == [] then []
    else if texts[0].text == "" then Starts(texts[1..], y, measure)
    else [y] + Starts(texts[1..], Advance(texts[0], y, measure), measure)
  }

  /** The image after the captions are drawn on a copy of it. */
  function Composed<F>(image: Image<F>, texts: seq<Entry<F>>, position: string,
                       fill: Colour, outline: Colour, measure: (string, F) -> Box): (out: Image<F>)
    ensures out.width == image.width && out.height == image.height
    ensures |image.drawn| <= |out.drawn| && out.drawn[..|image.drawn|] == image.drawn
  {
    image.(drawn := image.drawn
      + Layout(texts, image.width, InitialY(position, image.height), fill, outline, measure))
  }

  /** Each entry with a text contributes exactly fifty stamps; every other entry none. */
  lemma {:induction false} LayoutLength<F>(texts: seq<Entry<F>>, imageWidth: int, y: int,
                                           fill: Colour, outline: Colour, measure: (string, F) -> Box)
    ensures |Layout(texts, imageWidth, y, fill, outline, measure)| == StampsPerLine * |NonEmpty(texts)|
    decreases |texts|
  {
    if texts != [] {
      LayoutLength(texts[1..], imageWidth, Advance(texts[0], y, measure), fill, outline, measure);
    }
  }

  /** Entries with an empty text neither draw nor move the cursor: dropping them changes nothing. */
  lemma {:induction false} LayoutSkipsEmpty<F>(texts: seq<Entry<F>>, imageWidth: int, y: int,
                                               fill: Colour, outline: Colour, measure: (string, F) -> Box)
    ensures Layout(texts, imageWidth, y, fill, outline, measure)
         == Layout(NonEmpty(texts), imageWidth, y, fill, outline, measure)
    ensures Starts(texts, y, measure) == Starts(NonEmpty(texts), y, measure)
    decreases |texts|
  {
    if texts != [] {
      var rest := texts[1..];
      var y' := Advance(texts[0], y, measure);
      LayoutSkipsEmpty(rest, imageWidth, y', fill, outline, measure);
      var ne := NonEmpty(texts);
      if texts[0].text == "" {
        assert ne == NonEmpty(rest);
        assert y' == y;
      } else {
        assert ne == [texts[0]] + NonEmpty(rest);
        assert ne != [] && ne[0] == texts[0] && ne[1..] == NonEmpty(rest);
        assert Layout(ne, imageWidth, y, fill, outline, measure)
            == DrawEntry(texts[0], imageWidth, y, fill, outline, measure)
               + Layout(NonEmpty(rest), imageWidth, y', fill, outline, measure);
        assert Starts(ne, y, measure) == [y] + Starts(NonEmpty(rest), y', measure);
      }
    }
  }

  /** There is one start cursor per entry with a text; the first is the initial cursor. */
  lemma {:induction false} StartsLength<F>(texts: seq<Entry<F>>, y: int, measure: (string, F) -> Box)
    ensures |Starts(texts, y, measure)| == |NonEmpty(texts)|
    ensures |NonEmpty(texts)| > 0 ==> Starts(texts, y, measure)[0] == y
    decreases |texts|
  {
    if texts != [] {
      StartsLength(texts[1..], Advance(texts[0], y, measure), measure);
    }
  }

  /**
   * The i-th group of fifty stamps is the stamp of the i-th entry that has a text,
   * centred and drawn at the i-th start cursor.
   */
  lemma {:induction false} LayoutLine<F>(texts: seq<Entry<F>>, imageWidth: int, y: int,
                                         fill: Colour, outline: Colour, measure: (string, F) -> Box, i: nat)
    requires i < |NonEmpty(texts)|
    ensures |Starts(texts, y, measure)| == |NonEmpty(texts)|
    ensures StampsPerLine * i + StampsPerLine <= |Layout(texts, imageWidth, y, fill, outline, measure)|
    ensures var e := NonEmpty(texts)[i];
            Layout(texts, imageWidth, y, fill, outline, measure)[StampsPerLine * i..StampsPerLine * i + StampsPerLine]
            == Stamp(XOf(e, imageWidth, measure), Starts(texts, y, measure)[i], Upper(e.text), e.font, fill, outline)
    decreases |texts|, 1
  {
    if texts[0].text == "" {
      LayoutLineSkip(texts, imageWidth, y, fill, outline, measure, i);
    } else {
      LayoutLineDraw(texts, imageWidth, y, fill, outline, measure, i);
    }
  }

  /** LayoutLine when the first entry has no text: it is dropped and the cursor stays. */
  lemma {:induction false} LayoutLineSkip<F>(texts: seq<Entry<F>>, imageWidth: int, y: int,
                                             fill: Colour, outline: Colour, measure: (string, F) -> Box, i: nat)
    requires i < |NonEmpty(texts)| && texts[0].text == ""
    ensures |Starts(texts, y, measure)| == |NonEmpty(texts)|
    ensures StampsPerLine * i + StampsPerLine <= |Layout(texts, imageWidth, y, fill, outline, measure)|
    ensures var e := NonEmpty(texts)[i];
            Layout(texts, imageWidth, y, fill, outline, measure)[StampsPerLine * i..StampsPerLine * i + StampsPerLine]
            == Stamp(XOf(e, imageWidth, measure), Starts(texts, y, measure)[i], Upper(e.text), e.font, fill, outline)
    decreases |texts|, 0
  {
    var rest := texts[1..];
    assert NonEmpty(texts) == NonEmpty(rest);
    assert Starts(texts, y, measure) == Starts(rest, y, measure);
    assert Layout(texts, imageWidth, y, fill, outline, measure) == Layout(rest, imageWidth, y, fill, outline, measure);
    LayoutLine(rest, imageWidth, y, fill, outline, measure, i);
  }

  /** LayoutLine when the first entry has a text: its fifty stamps come first. */
  lemma {:induction false} LayoutLineDraw<F>(texts: seq<Entry<F>>, imageWidth: int, y: int,
                                             fill: Colour, outline: Colour, measure: (string, F) -> Box, i: nat)
    requires i < |NonEmpty(texts)| && texts != [] && texts[0].text != ""
    ensures |Starts(texts, y, measure)| == |NonEmpty(texts)|
    ensures StampsPerLine * i + StampsPerLine <= |Layout(texts, imageWidth, y, fill, outline, measure)|
    ensures var e := NonEmpty(texts)[i];
            Layout(texts, imageWidth, y, fill, outline, measure)[StampsPerLine * i..StampsPerLine * i + StampsPerLine]
            == Stamp(XOf(e, imageWidth, measure), Starts(texts, y, measure)[i], Upper(e.text), e.font, fill, outline)
    decreases |texts|, 0
  {
    StartsLength(texts, y, measure);
    LayoutLength(texts, imageWidth, y, fill, outline, measure);
    var rest := texts[1..];
    var y' := Advance(texts[0], y, measure);
    var head := DrawEntry(texts[0], imageWidth, y, fill, outline, measure);
    var tail := Layout(rest, imageWidth, y', fill, outline, measure);
    var ne := NonEmpty(texts);
    assert ne == [texts[0]] + NonEmpty(rest);
    assert Starts(texts, y, measure) == [y] + Starts(rest, y', measure);
    assert Layout(texts, imageWidth, y, fill, outline, measure) == head + tail;
    assert |head| == StampsPerLine;
    if i == 0 {
      assert ne[0] == texts[0];
      SliceOfConcat(head, tail, 0, StampsPerLine);
    } else {
      assert ne[i] == NonEmpty(rest)[i - 1];
      LayoutLine(rest, imageWidth, y', fill, outline, measure, i - 1);
      SliceOfConcat(head, tail, StampsPerLine * i, StampsPerLine);
    }
  }

  /** One step of the layout: the first entry's stamps, then the rest from the advanced cursor. */
  lemma LayoutUnfold<F>(texts: seq<Entry<F>>, imageWidth: int, y: int, fill: Colour, outline: Colour,
                        measure: (string, F) -> Box)
    requires texts != []
    ensures Layout(texts, imageWidth, y, fill, outline, measure)
         == DrawEntry(texts[0], imageWidth, y, fill, outline, measure)
            + Layout(texts[1..], imageWidth, Advance(texts[0], y, measure), fill, outline, measure)
  {
  }

  /** The layout from entry i on: entry i's stamps, then the layout from entry i + 1. */
  lemma LayoutFrom<F>(texts: seq<Entry<F>>, i: nat, imageWidth: int, y: int, fill: Colour, outline: Colour,
                      measure: (string, F) -> Box)
    requires i < |texts|
    ensures Layout(texts[i..], imageWidth, y, fill, outline, measure)
         == DrawEntry(texts[i], imageWidth, y, fill, outline, measure)
            + Layout(texts[i + 1..], imageWidth, Advance(texts[i], y, measure), fill, outline, measure)
  {
    assert texts[i..][0] == texts[i] && texts[i..][1..] == texts[i + 1..];
    LayoutUnfold(texts[i..], imageWidth, y, fill, outline, measure);
  }

  lemma SliceOfConcat<T>(head: seq<T>, tail: seq<T>, lo: nat, n: nat)
    requires lo + n <= |head| + |tail|
    requires lo + n <= |head| || |head| <= lo
    ensures lo + n <= |head| ==> (head + tail)[lo..lo + n] == head[lo..lo + n]
    ensures |head| <= lo ==> (head + tail)[lo..lo + n] == tail[lo - |head|..lo - |head| + n]
  {
  }

  /**
   * Stamp by stamp: the i-th line drawn is the i-th entry with a text; its 49 outline
   * stamps come first, and its text in the fill colour sits exactly at the line's
   * position as the last of its fifty stamps.
   */
  lemma LayoutStampAt<F>(texts: seq<Entry<F>>, imageWidth: int, y: int,
                         fill: Colour, outline: Colour, measure: (string, F) -> Box, i: nat, k: nat)
    requires i < |NonEmpty(texts)| && k < StampsPerLine
    ensures |Starts(texts, y, measure)| == |NonEmpty(texts)|
    ensures StampsPerLine * i + k < |Layout(texts, imageWidth, y, fill, outline, measure)|
    ensures var e := NonEmpty(texts)[i];
            var x := XOf(e, imageWidth, measure);
            var top := Starts(texts, y, measure)[i];
            var c := Layout(texts, imageWidth, y, fill, outline, measure)[StampsPerLine * i + k];
            c.text == Upper(e.text) && c.font == e.font
            && (k < OutlineStamps ==> c.fill == outline && x - Reach <= c.x <= x + Reach && top - Reach <= c.y <= top + Reach)
            && (k == OutlineStamps ==> c == Draw(x, top, Upper(e.text), e.font, fill))
  {
    LayoutLine(texts, imageWidth, y, fill, outline, measure, i);
    var e := NonEmpty(texts)[i];
    var x := XOf(e, imageWidth, measure);
    var top := Starts(texts, y, measure)[i];
    var s := Stamp(x, top, Upper(e.text), e.font, fill, outline);
    var lo := StampsPerLine * i;
    assert Layout(texts, imageWidth, y, fill, outline, measure)[lo + k] == s[k];
    if k < OutlineStamps {
      OutlineShape(x, top, Upper(e.text), e.font, outline);
      assert s[k] == Outline(x, top, Upper(e.text), e.font, outline)[k];
    }
  }

  /** Each drawn line starts its own height plus the gap below the start of the line before it. */
  lemma {:induction false} StartsStep<F>(texts: seq<Entry<F>>, y: int, measure: (string, F) -> Box, i: nat)
    requires i + 1 < |NonEmpty(texts)|
    ensures |Starts(texts, y, measure)| == |NonEmpty(texts)|
    ensures Starts(texts, y, measure)[i + 1]
         == Starts(texts, y, measure)[i] + BoxOf(NonEmpty(texts)[i], measure).Height() + LineGap
    decreases |texts|
  {
    StartsLength(texts, y, measure);
    var rest := texts[1..];
    var y' := Advance(texts[0], y, measure);
    StartsLength(rest, y', measure);
    if texts[0].text == "" {
      StartsStep(rest, y', measure, i);
    } else {
      var ne := NonEmpty(texts);
      assert ne == [texts[0]] + NonEmpty(rest);
      if i == 0 {
        assert ne[0] == texts[0];
      } else {
        assert ne[i] == NonEmpty(rest)[i - 1];
        StartsStep(rest, y', measure, i - 1);
      }
    }
  }

  /**
   * When no measured box has a negative height, every drawn line starts at least
   * the height of each earlier line plus the gap lower: lines never overlap and
   * strictly descend.
   */
  lemma {:induction false} StartsIncrease<F>(texts: seq<Entry<F>>, y: int, measure: (string, F) -> Box, i: nat, j: nat)
    requires forall e :: e in texts ==> BoxOf(e, measure).Height() >= 0
    requires i < j < |NonEmpty(texts)|
    ensures |Starts(texts, y, measure)| == |NonEmpty(texts)|
    ensures Starts(texts, y, measure)[i] + BoxOf(NonEmpty(texts)[i], measure).Height() + LineGap
         <= Starts(texts, y, measure)[j]
    ensures Starts(texts, y, measure)[i] < Starts(texts, y, measure)[j]
    decreases j
  {
    StartsLength(texts, y, measure);
    var ne := NonEmpty(texts);
    StartsStep(texts, y, measure, j - 1);
    NonEmptyMembers(texts);
    assert ne[j - 1] in texts;
    if i < j - 1 {
      StartsIncrease(texts, y, measure, i, j - 1);
    }
    assert ne[i] in texts;
  }

  /** Two entry lists with the same fonts and the same upper-cased texts lay out identically. */
  lemma {:induction false} LayoutSeesOnlyUpper<F>(a: seq<Entry<F>>, b: seq<Entry<F>>, imageWidth: int, y: int,
                                                  fill: Colour, outline: Colour, measure: (string, F) -> Box)
    requires |a| == |b|
    requires forall i :: 0 <= i < |a| ==> a[i].font == b[i].font && Upper(a[i].text) == Upper(b[i].text)
    ensures Layout(a, imageWidth, y, fill, outline, measure) == Layout(b, imageWidth, y, fill, outline, measure)
    decreases |a|
  {
    if a != [] {
      UpperEmpty(a[0].text);
      UpperEmpty(b[0].text);
      assert Advance(a[0], y, measure) == Advance(b[0], y, measure);
      assert DrawEntry(a[0], imageWidth, y, fill, outline, measure)
          == DrawEntry(b[0], imageWidth, y, fill, outline, measure);
      LayoutSeesOnlyUpper(a[1..], b[1..], imageWidth, Advance(a[0], y, measure), fill, outline, measure);
    }
  }

  /** Upper-casing the captions beforehand changes nothing, since upper-casing is idempotent. */
  lemma LayoutUpperIdempotent<F>(texts: seq<Entry<F>>, imageWidth: int, y: int,
                                 fill: Colour, outline: Colour, measure: (string, F) -> Box)
    ensures Layout(texts, imageWidth, y, fill, outline, measure)
         == Layout(seq(|texts|, i requires 0 <= i < |texts| => Entry(Upper(texts[i].text), texts[i].font)),
                   imageWidth, y, fill, outline, measure)
  {
    var upper := seq(|texts|, i requires 0 <= i < |texts| => Entry(Upper(texts[i].text), texts[i].font));
    forall i | 0 <= i < |texts|
      ensures upper[i].font == texts[i].font && Upper(upper[i].text) == Upper(texts[i].text)
    {
      UpperIdempotent(texts[i].text);
    }
    LayoutSeesOnlyUpper(texts, upper, imageWidth, y, fill, outline, measure);
  }

  /** Captioning with "abc" and with "ABC" gives the same image. */
  lemma ComposedAbc<F>(image: Image<F>, font: F, rest: seq<Entry<F>>, position: string,
                       fill: Colour, outline: Colour, measure: (string, F) -> Box)
    ensures Composed(image, [Entry("abc", font)] + rest, position, fill, outline, measure)
         == Composed(image, [Entry("ABC", font)] + rest, position, fill, outline, measure)
  {
    UpperAbc();
    var a := [Entry("abc", font)] + rest;
    var b := [Entry("ABC", font)] + rest;
    LayoutSeesOnlyUpper(a, b, image.width, InitialY(position, image.height), fill, outline, measure);
  }

  /**
   * The composed image keeps its size and everything drawn on the original, then
   * adds fifty stamps per entry with a text; a list without texts leaves it unchanged.
   */
  lemma ComposedKeepsOriginal<F>(image: Image<F>, texts: seq<Entry<F>>, position: string,
                                 fill: Colour, outline: Colour, measure: (string, F) -> Box)
    ensures var out := Composed(image, texts, position, fill, outline, measure);
            out.width == image.width && out.height == image.height
            && |out.drawn| == |image.drawn| + StampsPerLine * |NonEmpty(texts)|
            && out.drawn[..|image.drawn|] == image.drawn
    ensures NonEmpty(texts) == [] ==> Composed(image, texts, position, fill, outline, measure) == image
  {
    LayoutLength(texts, image.width, InitialY(position, image.height), fill, outline, measure);
  }

  /**
   * Stamps the outline of a text around (x, y) after the commands already issued:
   * for each horizontal offset -3..3, for each vertical offset -3..3, one stamp
   * in the outline colour.
   */
  method DrawOutline<F>(cmds: seq<Command<F>>, x: int, y: int, text: string, font: F, colour: Colour)
    returns (out: seq<Command<F>>)
    ensures out == cmds + Outline(x, y, text, font, colour)
  {
    out := cmds;
    ghost var ring := Outline(x, y, text, font, colour);
    for adj := -3 to 4
      invariant out == cmds + ring[..7 * (adj + 3)]
    {
      for adjY := -3 to 4
        invariant out == cmds + ring[..7 * (adj + 3) + (adjY + 3)]
      {
        ghost var n := 7 * (adj + 3) + (adjY + 3);
        OutlineAt(x, y, text, font, colour, adj, adjY);
        assert ring[..n + 1] == ring[..n] + [ring[n]];
        out := out + [Draw(x + adj, y + adjY, text, font, colour)];
      }
    }
    assert ring[..49] == ring;
  }

  /**
   * Draws one caption line at cursor y, if it has a text: measures the upper-cased
   * text, centres it, stamps the outline and then the text, and moves the cursor
   * down by the measured height plus the gap.
   */
  method DrawLine<F>(cmds: seq<Command<F>>, e: Entry<F>, imgWidth: int, y: int,
                     textColour: Colour, outlineColour: Colour, measure: (string, F) -> Box)
    returns (out: seq<Command<F>>, nextY: int)
    ensures out == cmds + DrawEntry(e, imgWidth, y, textColour, outlineColour, measure)
    ensures nextY == Advance(e, y, measure)
  {
    out, nextY := cmds, y;
    if e.text != "" {
      var textUpper := Upper(e.text);
      var bbox := measure(textUpper, e.font);
      var textWidth := bbox.x1 - bbox.x0;
      var x := (imgWidth - textWidth) / 2;
      out := DrawOutline(out, x, y, textUpper, e.font, outlineColour);
      out := out + [Draw(x, y, textUpper, e.font, textColour)];
      nextY := y + (bbox.y1 - bbox.y0) + 20;
    }
  }

  /**
   * Draws the captions on a copy of the image: the entries in order, each line
   * below the one before, starting at the cursor the position name selects.
   */
  method AddTextToImage<F>(image: Image<F>, texts: seq<Entry<F>>, position: string,
                           textColour: Colour, outlineColour: Colour, measure: (string, F) -> Box)
    returns (img: Image<F>)
    ensures img == Composed(image, texts, position, textColour, outlineColour, measure)
    ensures img.width == image.width && img.height == image.height
    ensures img.drawn[..|image.drawn|] == image.drawn
    ensures |img.drawn| == |image.drawn| + StampsPerLine * |NonEmpty(texts)|
  {
    var cmds := image.drawn;
    var imgWidth, imgHeight := image.width, image.height;
    var positions := YPositions(imgHeight);
    var currentY := if position in positions then positions[position] else 40;
    assert currentY == InitialY(position, imgHeight);
    ghost var total := Layout(texts, imgWidth, currentY, textColour, outlineColour, measure);

    for i := 0 to |texts|
      invariant cmds + Layout(texts[i..], imgWidth, currentY, textColour, outlineColour, measure)
             == image.drawn + total
    {
      LayoutFrom(texts, i, imgWidth, currentY, textColour, outlineColour, measure);
      ghost var step := DrawEntry(texts[i], imgWidth, currentY, textColour, outlineColour, measure);
      ghost var rest := Layout(texts[i + 1..], imgWidth, Advance(texts[i], currentY, measure),
                               textColour, outlineColour, measure);
      assert cmds + (step + rest) == (cmds + step) + rest;
      cmds, currentY := DrawLine(cmds, texts[i], imgWidth, currentY, textColour, outlineColour, measure);
    }
    assert texts[|texts|..] == [];
    img := Image(imgWidth, imgHeight, cmds);
    ComposedKeepsOriginal(image, texts, position, textColour, outlineColour, measure);
  }
}
