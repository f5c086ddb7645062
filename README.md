# Caption layout of the AI meme / poster creator

The application is a form around a remote text-to-image service. After the
image comes back, the form handler chooses which caption fields to draw. It
then calls `add_text_to_image`, which draws each caption line on a copy of
the image, centred horizontally, upper-cased, with a 7×7 outline in the
outline colour and the text itself stamped last in the text colour. The
vertical cursor starts at a point the position name chooses and moves down
by each line's measured height plus 20.

This project models that layout and the two small pieces of glue beside it:
- the caption selection rule, which builds `texts_to_add`;
- the assembly of the prompt sent to the image service.

It proves centring, skipping, the 49 + 1 stamp pattern, ordering, cursor
monotonicity, upper-case idempotence, the selection rule and the prompt's
structure.

Modules:
- `Text` (`text.dfy`): upper-casing of caption text.
- `Compositor` (`compositor.dfy`): the layout as specification functions
  (`InitialY`, `CenterX`, `Outline`, `Stamp`, `Layout`, `Starts`, `Composed`).
  It also holds the imperative `AddTextToImage`, with its outline loops
  (`DrawOutline`) and per-line step (`DrawLine`), proved equal to them.
- `Captions` (`captions.dfy`): the `texts_to_add` block (`TextsToAdd`) and
  the captioning step around it (`Caption`).
- `Prompt` (`prompt.dfy`): the enhancer suffixes, the style table and the
  full prompt.

Modelling choices:
- An image is a value `Image(width, height, drawn)`. `drawn` is the sequence
  of `Draw(x, y, text, font, colour)` commands issued on it, standing in
  for pixels. `image.copy()` is value semantics: the input is never changed.
- Fonts are a type parameter. `draw.textbbox` is the function parameter
  `measure`, which returns an integer box `(x0, y0, x1, y1)`.
- Python's `//` by 2 is Dafny's `/` by 2: both floor, because the divisor is
  positive.
- Each caption entry carries its own font. The two fonts that
  `add_text_to_image` loads itself (app.py:390-395) are never used, so its
  `font_size` argument is dropped from the model.
- A position name other than "Top", "Center" or "Bottom" starts at 40. That
  includes "Top & Bottom": all of its lines are stacked in one pass from the
  top, and the bottom text lands under the headline rather than near the
  bottom edge (`Captions.TopAndBottomStacksFromTop`). "Top & Bottom" is
  drawn in a single call of `add_text_to_image`, not one call per edge.
- "Center" never selects the headline; only "Top" and "Top & Bottom" do.
  The model follows the code here too.

## Model

| member | source | states |
|---|---|---|
| `Text.UpperChar` | app.py:410 | a lower-case ASCII letter maps to its capital (code point minus 32); every other character is kept; no result is a lower-case letter |
| `Text.Upper` | app.py:410 | upper-casing keeps the length and upper-cases each character in place, so the result has no lower-case letter |
| `Text.UpperIdempotent` | app.py:410 | upper-casing an upper-cased string changes nothing |
| `Text.UpperEmpty` | app.py:407-410 | a text is empty after upper-casing exactly when it was empty before, so the skip test can be made on either |
| `Text.UpperAbc` | app.py:410 | "abc" and "ABC" both upper-case to "ABC" |
| `Compositor.YPositions` | app.py:398-402 | the cursor table names exactly the positions "Top", "Center" and "Bottom" |
| `Compositor.InitialY` | app.py:398-404 | the first cursor is 40 for "Top", the floor of height/2 minus 50 for "Center", height − 150 for "Bottom", and 40 for any other name, "Top & Bottom" included |
| `Compositor.CenterX` | app.py:412-413 | x is the floor of (image width − text width)/2: the space left of the text equals the space right of it, or falls short of it by one |
| `Compositor.CenterXNegative` | app.py:413 | a text wider than the image starts at a negative x, with no error |
| `Compositor.Outline` | app.py:416-418 | the outline is exactly 49 stamps |
| `Compositor.OutlineAt` | app.py:416-418 | for every dx and dy in −3..3 there is an outline stamp at (x+dx, y+dy), found at position 7·(dx+3)+(dy+3), so dx varies slowest |
| `Compositor.OutlineShape` | app.py:416-418 | every outline stamp has the outline colour, the upper-cased text and the entry's font, and lies within 3 of (x, y) on both axes; no two outline stamps share a position |
| `Compositor.Stamp` | app.py:416-421 | one line is 50 stamps, and the last is the text in the text colour exactly at (x, y) |
| `Compositor.DrawEntry` | app.py:407-421 | the stamps of one loop iteration: none for an empty text; otherwise 50, the last being the upper-cased text in the text colour at the centred x and the cursor |
| `Compositor.Advance` | app.py:407-422 | the cursor after one loop iteration: unchanged for an empty text; otherwise at least 20 lower whenever the measured height is non-negative |
| `Compositor.Layout` | app.py:406-422 | all stamps of the loop, entry by entry in input order from the given cursor: 50 per entry with a text |
| `Compositor.Starts` | app.py:404-422 | the cursor at which each drawn line starts: one per entry with a text, the first being the initial cursor |
| `Compositor.Composed` | app.py:385-424 | the image after captioning a copy: same size, with the original drawing kept as a prefix of the new one |
| `Compositor.NonEmpty` | app.py:406-408 | keeping the entries with a text never lengthens the list |
| `Compositor.NonEmptyMembers` | app.py:406-408 | the kept entries are exactly the entries of the list whose text is not empty |
| `Compositor.LayoutLength` | app.py:406-422 | the layout issues exactly 50 stamps per entry with a text and none for any other |
| `Compositor.LayoutSkipsEmpty` | app.py:406-408 | entries with an empty text neither draw nor move the cursor: dropping them gives the same stamps and the same line starts |
| `Compositor.StartsLength` | app.py:404-406 | there is one start cursor per drawn line, and the first drawn line starts at the initial cursor |
| `Compositor.LayoutLine` | app.py:406-422 | the i-th group of 50 stamps is the full stamp of the i-th entry with a text, centred, upper-cased and drawn at the i-th start cursor, so entries keep their input order |
| `Compositor.LayoutStampAt` | app.py:410-421 | stamp k of drawn line i: for k < 49 it is an outline-colour stamp within 3 of the line's (x, y); for k = 49 it is the text-colour stamp exactly at (x, y) |
| `Compositor.StartsStep` | app.py:422 | each drawn line starts at the previous drawn line's start plus that line's measured height plus 20 |
| `Compositor.StartsIncrease` | app.py:406-422 | when no measured box has negative height, every later drawn line starts at least an earlier line's height plus 20 below it, so start cursors strictly increase |
| `Compositor.LayoutSeesOnlyUpper` | app.py:410-421 | two entry lists with the same fonts and the same upper-cased texts give the same stamps |
| `Compositor.LayoutUpperIdempotent` | app.py:410-421 | upper-casing the captions beforehand leaves the layout unchanged |
| `Compositor.ComposedAbc` | app.py:410-421 | captioning with "abc" and with "ABC" gives the same image |
| `Compositor.ComposedKeepsOriginal` | app.py:385-424 | the composed image keeps its size and its existing drawing as a prefix, and gains 50 stamps per entry with a text; a list with no text leaves the image unchanged |
| `Compositor.DrawOutline` | app.py:416-418 | the nested outline loops append exactly the 49 outline stamps in loop order |
| `Compositor.DrawLine` | app.py:406-422 | one loop iteration appends the entry's stamps (none for an empty text) and moves the cursor by the measured height plus 20 (not at all for an empty text) |
| `Compositor.AddTextToImage` | app.py:385-424 | the loop yields the composed image: the original's drawing followed by the layout from the position's initial cursor, with the size unchanged |
| `Captions.Wanted` | app.py:464-471 | a position asks for two to four candidate lines |
| `Captions.SelectionParts` | app.py:463-471 | the selection is, in order, the headline (large font) if the position shows it, the subtitle, the bottom text if the position shows it, and the contact line (all small font), each only when non-empty |
| `Captions.TextsToAdd` | app.py:463-471 | the conditional appends build exactly the non-empty candidate lines, in order, so no selected entry has an empty text |
| `Captions.SelectionMembers` | app.py:464-471 | an entry is selected if and only if its text is non-empty and it is the subtitle or contact line in the small font, the headline in the large font for "Top" or "Top & Bottom", or the bottom text in the small font for "Bottom" or "Top & Bottom" |
| `Captions.SelectionShape` | app.py:463-473 | at most four lines are selected; a shown, non-empty headline is the first; a blank form selects nothing |
| `Captions.Caption` | app.py:462-474 | position "None" leaves the image unchanged; otherwise the result is the candidate lines composed at the position's cursor, which is also the unchanged image when every candidate is empty |
| `Captions.TopAndBottomStacksFromTop` | app.py:404-422 | for "Top & Bottom" the headline starts at 40, and the bottom text is drawn below it, at least the headline's height plus 20 lower, when boxes have non-negative height |
| `Prompt.Enhanced` | app.py:430-437 | the enhanced prompt always starts with the user's prompt |
| `Prompt.EnhancePrompt` | app.py:430-437 | the `+=` steps produce the enhanced prompt, which starts with the user's prompt |
| `Prompt.EnhancedShape` | app.py:430-437 | the enhanced prompt starts with the user's prompt; the three ticked phrases add 29, 28 and 22 characters; with no flag set it is the user's prompt |
| `Prompt.EnhancedInjective` | app.py:430-437 | different checkbox choices never give the same enhanced prompt |
| `Prompt.StyleKeyword` | app.py:364-376 | the keyword phrase is non-empty if and only if the style is in the table |
| `Prompt.StyleKeywordsDistinct` | app.py:364-374 | different styles in the table have different keyword phrases |
| `Prompt.FullPrompt` | app.py:376 | the full prompt is the given prompt, then the two-character separator ", ", then exactly the style's keyword phrase |
| `Prompt.FullPromptParts` | app.py:376 | the full prompt is the given prompt, then ", ", then the style's keywords; an unknown style leaves a trailing ", " |
| `Prompt.FullPromptDeterminesStyle` | app.py:364-376 | for a given prompt, the full prompt determines which style of the table was chosen |
| `Prompt.RequestPrompt` | app.py:427-440 | a prompt is sent if and only if generate was pressed with a non-empty prompt; the prompt sent is the user's prompt, then the enhancer phrases of the ticked checkboxes in order, then ", ", then the style's keywords |

## Left out

- Streamlit page layout, widgets, tabs, toasts, session state and the history list: these are UI glue.
- The HTTP request to the image service, URL encoding and image decoding are network I/O and a foreign library. The model stops at the prompt string.
- Font loading and its fallback to a default font, in both places, depend on the filesystem. The fonts are parameters, and the pair loaded in `add_text_to_image` is unused anyway.
- Rasterisation of text: drawing is recorded as commands, not pixels, and `textbbox` is the parameter `measure`. Clipping at the image edge is therefore not modelled.
- Brightness, contrast and saturation adjustment use floating point and a library.
- PNG/JPEG encoding and thumbnail downscaling are library codecs.
- The size presets, template catalogue and caption suggestions are static data with no behaviour.
- Text.Upper: models ASCII upper-casing only. Python's `str.upper` maps all of Unicode and can lengthen a string ('ß' becomes "SS"). The proved idempotence and length preservation are about the ASCII model.
- Text.UpperChar: changes only 'a'..'z'. A non-ASCII lower-case letter such as 'é' is kept as it is, where Python's `str.upper` gives 'É'.
