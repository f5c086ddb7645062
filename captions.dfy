/**
 * Which caption lines go on a design, and the captioning step that draws them.
 *
 * The form offers four caption fields (headline, subtitle, bottom text and
 * contact line) and a position name ("Top", "Bottom", "Center",
 * "Top & Bottom" or "None"). The headline is drawn in the large font, the
 * other three in the small font.
 */
module Captions {
  import opened Compositor

  /** The position name that turns captioning off. */
  const NoCaption: string := "None"

  /** Positions that show the headline. */
  predicate ShowsHeadline(position: string)
  {
    position == "Top" || position == "Top & Bottom"
  }

  /** Positions that show the bottom text. */
  predicate ShowsBottomText(position: string)
  {
    position == "Bottom" || position == "Top & Bottom"
  }

  /**
   * The caption lines a position asks for, in drawing order and before empty
   * fields are dropped: headline (if the position shows it), subtitle, bottom
   * text (if the position shows it), contact line.
   */
  function Wanted<F>(position: string, headline: string, subtitle: string, bottomText: string,
                     contact: string, font: F, smallFont: F): (w: seq<Entry<F>>)
    ensures 2 <= |w| <= 4
  {
    (if ShowsHeadline(position) then [Entry(headline, font)] else [])
    + [Entry(subtitle, smallFont)]
    + (if ShowsBottomText(position) then [Entry(bottomText, smallFont)] else [])
    + [Entry(contact, smallFont)]
  }

  /** Dropping empty entries distributes over concatenation. */
  lemma {:induction false} NonEmptyConcat<F>(a: seq<Entry<F>>, b: seq<Entry<F>>)
    ensures NonEmpty(a + b) == NonEmpty(a) + NonEmpty(b)
    decreases |a|
  {
    if a != [] {
      assert (a + b)[1..] == a[1..] + b;
      assert (a + b)[0] == a[0];
      NonEmptyConcat(a[1..], b);
    } else {
      assert a + b == b;
    }
  }

  /** The entry, alone, when the position shows it and its text is not empty; else nothing. */
  function Pick<F>(shown: bool, e: Entry<F>): seq<Entry<F>>
  {
    if shown && e.text != "" then [e] else []
  }

  /** Dropping empty entries from an optional entry is picking it. */
  lemma NonEmptyOptional<F>(shown: bool, e: Entry<F>)
    ensures NonEmpty(if shown then [e] else []) == Pick(shown, e)
  {
    if shown {
      assert [e][1..] == [];
    }
  }

  /** The selection is the four fields' picks, in order. */
  lemma SelectionParts<F>(position: string, headline: string, subtitle: string, bottomText: string,
                          contact: string, font: F, smallFont: F)
    ensures NonEmpty(Wanted(position, headline, subtitle, bottomText, contact, font, smallFont))
         == Pick(ShowsHeadline(position), Entry(headline, font)) + Pick(true, Entry(subtitle, smallFont))
            + Pick(ShowsBottomText(position), Entry(bottomText, smallFont)) + Pick(true, Entry(contact, smallFont))
  {
    var h := if ShowsHeadline(position) then [Entry(headline, font)] else [];
    var s := [Entry(subtitle, smallFont)];
    var b := if ShowsBottomText(position) then [Entry(bottomText, smallFont)] else [];
    var c := [Entry(contact, smallFont)];
    NonEmptyConcat(h + s + b, c);
    NonEmptyConcat(h + s, b);
    NonEmptyConcat(h, s);
    NonEmptyOptional(ShowsHeadline(position), Entry(headline, font));
    NonEmptyOptional(true, Entry(subtitle, smallFont));
    NonEmptyOptional(ShowsBottomText(position), Entry(bottomText, smallFont));
    NonEmptyOptional(true, Entry(contact, smallFont));
  }

  /**
   * Builds the list of caption lines as the form handler does: one conditional
   * append per field, each field skipped when it is empty or when the position
   * does not show it.
   */
  method TextsToAdd<F>(position: string, headline: string, subtitle: string, bottomText: string,
                       contact: string, font: F, smallFont: F)
    returns (texts: seq<Entry<F>>)
    ensures texts == NonEmpty(Wanted(position, headline, subtitle, bottomText, contact, font, smallFont))
    ensures forall i :: 0 <= i < |texts| ==> texts[i].text != ""
  {
    texts := [];
    ghost var h := Pick(ShowsHeadline(position), Entry(headline, font));
    if ShowsHeadline(position) && headline != "" {
      texts := texts + [Entry(headline, font)];
    }
    assert texts == h;
    ghost var st := Pick(true, Entry(subtitle, smallFont));
    if subtitle != "" {
      texts := texts + [Entry(subtitle, smallFont)];
    }
    assert texts == h + st;
    ghost var b := Pick(ShowsBottomText(position), Entry(bottomText, smallFont));
    if ShowsBottomText(position) && bottomText != "" {
      texts := texts + [Entry(bottomText, smallFont)];
    }
    assert texts == h + st + b;
    ghost var c := Pick(true, Entry(contact, smallFont));
    if contact != "" {
      texts := texts + [Entry(contact, smallFont)];
    }
    assert texts == h + st + b + c;
    SelectionParts(position, headline, subtitle, bottomText, contact, font, smallFont);
    NonEmptyMembers(Wanted(position, headline, subtitle, bottomText, contact, font, smallFont));
  }

  /**
   * An entry is selected exactly when its text is not empty and it is the
   * subtitle or the contact line in the small font, the headline in the large
   * font for a position that shows the headline, or the bottom text in the
   * small font for a position that shows the bottom text.
   */
  lemma SelectionMembers<F>(position: string, headline: string, subtitle: string, bottomText: string,
                            contact: string, font: F, smallFont: F, e: Entry<F>)
    ensures e in NonEmpty(Wanted(position, headline, subtitle, bottomText, contact, font, smallFont))
        <==> e.text != ""
             && (e == Entry(subtitle, smallFont) || e == Entry(contact, smallFont)
                 || (ShowsHeadline(position) && e == Entry(headline, font))
                 || (ShowsBottomText(position) && e == Entry(bottomText, smallFont)))
  {
    SelectionParts(position, headline, subtitle, bottomText, contact, font, smallFont);
  }

  /**
   * The headline, when given and shown, is the first line drawn; at most four
   * lines are ever selected; with every field empty nothing is.
   */
  lemma SelectionShape<F>(position: string, headline: string, subtitle: string, bottomText: string,
                          contact: string, font: F, smallFont: F)
    ensures var sel := NonEmpty(Wanted(position, headline, subtitle, bottomText, contact, font, smallFont));
            |sel| <= 4
            && (ShowsHeadline(position) && headline != "" ==> sel[0] == Entry(headline, font))
            && (headline == "" && subtitle == "" && bottomText == "" && contact == "" ==> sel == [])
  {
    SelectionParts(position, headline, subtitle, bottomText, contact, font, smallFont);
  }

  /**
   * The captioning step of the form handler: nothing happens for position
   * "None" or when no field is selected; otherwise the selected lines are drawn
   * on a copy of the image at the position's cursor.
   */
  method Caption<F>(image: Image<F>, position: string, headline: string, subtitle: string,
                    bottomText: string, contact: string, font: F, smallFont: F,
                    textColour: Colour, outlineColour: Colour, measure: (string, F) -> Box)
    returns (out: Image<F>)
    ensures position == NoCaption ==> out == image
    ensures position != NoCaption ==>
      out == Composed(image, Wanted(position, headline, subtitle, bottomText, contact, font, smallFont),
                      position, textColour, outlineColour, measure)
    ensures out.width == image.width && out.height == image.height
    ensures out.drawn[..|image.drawn|] == image.drawn
  {
    out := image;
    if position != NoCaption {
      var texts := TextsToAdd(position, headline, subtitle, bottomText, contact, font, smallFont);
      var w := Wanted(position, headline, subtitle, bottomText, contact, font, smallFont);
      var y := InitialY(position, image.height);
      LayoutSkipsEmpty(w, image.width, y, textColour, outlineColour, measure);
      if texts != [] {
        out := AddTextToImage(image, texts, position, textColour, outlineColour, measure);
      } else {
        assert Layout(w, image.width, y, textColour, outlineColour, measure) == [];
        assert image.drawn + [] == image.drawn;
      }
    }
  }

  /**
   * With position "Top & Bottom" all selected lines are stacked down from the
   * top cursor in one pass: the headline starts at 40, and the bottom text is
   * not moved to the bottom of the image but drawn below the headline (and the
   * subtitle, when there is one), whenever no measured box has negative height.
   */
  lemma TopAndBottomStacksFromTop<F>(height: nat, headline: string, subtitle: string, bottomText: string,
                                     contact: string, font: F, smallFont: F, measure: (string, F) -> Box)
    requires headline != "" && bottomText != ""
    requires forall e :: e in Wanted("Top & Bottom", headline, subtitle, bottomText, contact, font, smallFont)
                         ==> BoxOf(e, measure).Height() >= 0
    ensures var w := Wanted("Top & Bottom", headline, subtitle, bottomText, contact, font, smallFont);
            var k := if subtitle == "" then 1 else 2;
            var starts := Starts(w, InitialY("Top & Bottom", height), measure);
            k < |NonEmpty(w)| == |starts|
            && NonEmpty(w)[0] == Entry(headline, font) && starts[0] == 40
            && NonEmpty(w)[k] == Entry(bottomText, smallFont)
            && starts[k] >= 40 + BoxOf(Entry(headline, font), measure).Height() + LineGap
  {
    var w := Wanted("Top & Bottom", headline, subtitle, bottomText, contact, font, smallFont);
    var k := if subtitle == "" then 1 else 2;
    var y := InitialY("Top & Bottom", height);
    assert "Top & Bottom" !in {"Top", "Center", "Bottom"};
    SelectionParts("Top & Bottom", headline, subtitle, bottomText, contact, font, smallFont);
    var sub := Pick(true, Entry(subtitle, smallFont));
    assert |sub| == k - 1;
    assert NonEmpty(w) == [Entry(headline, font)] + sub + [Entry(bottomText, smallFont)]
                          + Pick(true, Entry(contact, smallFont));
    StartsLength(w, y, measure);
    StartsIncrease(w, y, measure, 0, k);
  }
}
