# DunningKruger chart core in Dafny

This project models the geometry and layout behind the DunningKruger app's
chart. The app plots people on a Dunning–Kruger curve and hangs a name tag
above or below each marker. Normalized chart coordinates run over `[0,1]`,
and `CGFloat` is modelled as Dafny's `real`.

The model covers these parts:

- **Curve sampler** (`CurveSampler`). It holds the four cubic Bézier segments of the
  curve. It samples each segment at 51 parameter values and sorts the
  samples by x into a 204-entry table. `curveY` clamps x, binary-searches
  the table for a bracketing pair and interpolates linearly between it.
  Brackets narrower than 1e-9 fall back to the left sample. `snap` keeps a
  point's x (clamped) and puts it on the curve. The binary search is a loop
  method, proved equal to a linear-scan reference definition of the bracket.
- **Tag layout engine** (`TagLayout`). It builds one rectangle per tag,
  capping the name length at 12 characters. The rectangles are sorted by x
  and swept greedily: each tag is compared with at most its four sorted
  predecessors. On overlap with a neighbour on the same side of the curve
  it flips to the other side; either way it is then pushed away in steps of 0.05, at most five times per neighbour. The
  offsets are finally written back at each tag's index. The sweep is given
  twice: as a function of its prefix (`SweepSpec`) and as the nested loops
  of the source (`Sweep`), and the two are proved equal.
- **View-model** (`ChartModel`). It holds the list of people and the colour counter.
  `addPerson`, `removePerson` and `updatePosition` are modelled as functions
  on a `ChartState`, and each one is followed by a new tag layout. A
  `ChartViewModel` class wraps the state.
- **Person** (`People`): initials, palette colour, default tag offset.
- **Themes** (`Theme`): identifiers and their labels, the 8-colour palettes
  with colours kept opaque, the per-theme flags, palette cycling and the
  button texts.
- **Marker view** (`MarkerView`, `PixelFont`). It covers the 3×5 pixel font and its
  renderer, which is a nested loop proved equal to a pixel-by-pixel
  definition. It also covers the tag's display name, the tag half-width
  estimate, the normalized↔pixel mapping, the clamped tag position and
  the point a finished drag reports.
- **Shapes** (`CurveShape`): the curve path and the retro grid, as sequences of
  move/line/curve commands.
- **Chart sizes** (`ChartLayout`): the responsive padding and font sizes,
  and the rows drawn by the CRT scanline overlay.

Three behaviours of the code are worth stating because a casual reading
suggests otherwise:

- The tag's display name is uppercased even when it has 12 characters or
  fewer. Only longer names are cut to 11 characters plus `…`.
- The greedy sweep does not guarantee that tags end up separated.
  `TagLayout.StackedTagsMayStillOverlap` exhibits three tags at the same
  point. The third is flipped below the curve on top of the second, which
  it was already compared with, and the two overlap.
- `initials` on a single word takes the first two characters of the raw,
  untrimmed name, so a leading space is kept.

## Model

| member | source | states |
|---|---|---|
| CurveSampler.Evaluate | DunningKruger/Utilities/DKCurveSampler.swift:12-21 | evaluating a segment at t = 0 gives p0 and at t = 1 gives p3 |
| CurveSampler.BernsteinWithin | DunningKruger/Utilities/DKCurveSampler.swift:19-20 | for t in [0,1] each coordinate of the cubic lies between the smallest and largest of its four control coordinates |
| CurveSampler.EvaluateInUnitSquare | DunningKruger/Utilities/DKCurveSampler.swift:12-21 | a segment whose control points lie in the unit square stays in it for every t in [0,1] |
| CurveSampler.CanonicalSegments | DunningKruger/Utilities/DKCurveSampler.swift:32-57 | there are four segments, each starting where the previous one ends; the curve starts at x = 0 and ends at x = 1; every control point is in the unit square |
| CurveSampler.SegmentSamples | DunningKruger/Utilities/DKCurveSampler.swift:66-73 | a segment yields n + 1 samples, the first being p0 and the last p3 |
| CurveSampler.RawSamples | DunningKruger/Utilities/DKCurveSampler.swift:64-73 | sampling k segments gives k·(n + 1) points |
| CurveSampler.RawSamplesInUnitSquare | DunningKruger/Utilities/DKCurveSampler.swift:64-73 | every sample of segments with controls in the unit square is in the unit square |
| CurveSampler.RawSamplesEnds | DunningKruger/Utilities/DKCurveSampler.swift:64-73 | the first sample is the first segment's p0 and the last sample is the last segment's p3 |
| CurveSampler.Build | DunningKruger/Utilities/DKCurveSampler.swift:64-76 | the table holds exactly the samples (same multiset), sorted by x ascending |
| CurveSampler.BuildSpansUnit | DunningKruger/Utilities/DKCurveSampler.swift:64-76 | the sorted table starts at x = 0, ends at x = 1 and stays in the unit square |
| CurveSampler.Shared | DunningKruger/Utilities/DKCurveSampler.swift:62 | the shared table has 4 × 51 = 204 entries, sorted by x, from x = 0 to x = 1 |
| CurveSampler.Bracket | DunningKruger/Utilities/DKCurveSampler.swift:83-94 | the bracket's left index lo has a successor; lo is 0 or table[lo].x ≤ c; every later index up to the second-to-last has x > c |
| CurveSampler.BracketUnique | DunningKruger/Utilities/DKCurveSampler.swift:83-94 | on a sorted table, any lo with lo = 0 or table[lo].x ≤ c, and with lo + 1 last or table[lo + 1].x > c, is the bracket |
| CurveSampler.SearchBracket | DunningKruger/Utilities/DKCurveSampler.swift:83-94 | the binary search ends with hi = lo + 1, table[lo].x ≤ c unless lo = 0, and table[hi].x > c unless hi is the last index; lo is the reference bracket |
| CurveSampler.CurveY | DunningKruger/Utilities/DKCurveSampler.swift:80-105 | the height at the clamped x, interpolated in the reference bracket; its contract is stated by CurveSampler.CurveYClamps, CurveSampler.CurveYDegenerate and CurveSampler.CurveYInterpolates, and CurveSampler.CurveYSearch ties it to the binary search |
| CurveSampler.CurveYSearch | DunningKruger/Utilities/DKCurveSampler.swift:80-105 | the binary-search implementation of curveY returns the reference height |
| CurveSampler.BracketEncloses | DunningKruger/Utilities/DKCurveSampler.swift:81-94 | on a table spanning [0,1] the bracketing samples' x values enclose the clamped x |
| CurveSampler.CurveYClamps | DunningKruger/Utilities/DKCurveSampler.swift:81 | any x < 0 gives curveY(0) and any x > 1 gives curveY(1) |
| CurveSampler.CurveYDegenerate | DunningKruger/Utilities/DKCurveSampler.swift:99-101 | when the bracketing samples' x values differ by less than 1e-9 the result is a.y |
| CurveSampler.InterpolateBetween | DunningKruger/Utilities/DKCurveSampler.swift:99-104 | interpolating at c between a.x and b.x yields a height between a.y and b.y |
| CurveSampler.CurveYInterpolates | DunningKruger/Utilities/DKCurveSampler.swift:96-104 | outside the degenerate case the height is the linear interpolation of the bracket; it always lies between the bracket's heights and in [0,1] |
| CurveSampler.Snap | DunningKruger/Utilities/DKCurveSampler.swift:108-111 | the snapped point has x = clamp(p.x, 0, 1) and lies on the curve |
| CurveSampler.SnapIgnoresY | DunningKruger/Utilities/DKCurveSampler.swift:108-111 | snapping ignores the input's y |
| CurveSampler.SnapFixesOnCurve | DunningKruger/Utilities/DKCurveSampler.swift:108-111 | a point on the curve snaps to itself, so snapping is idempotent |
| Sorting.SortBy | DunningKruger/Utilities/DKCurveSampler.swift:75 | sorting yields a permutation of its input, ordered by the key |
| Geometry.Clamp | DunningKruger/Utilities/DKCurveSampler.swift:81 | the result lies in [lo, hi], is the input when that is already inside, and is the nearer end otherwise |
| TagLayout.HalfWidthCapped | DunningKruger/Utilities/TagLayoutEngine.swift:38-40 | names longer than 12 characters size like 12; half-width never decreases with length and lies between 0.01 and 12·0.009/2 + 0.01 |
| TagLayout.Rects | DunningKruger/Utilities/TagLayoutEngine.swift:37-49 | one rectangle per tag, in input order, at the tag's x with the tag's index, half-height 0.03 and offset +0.10 |
| TagLayout.Overlaps | DunningKruger/Utilities/TagLayoutEngine.swift:87-93 | two rectangles overlap when their x-ranges and their y-ranges both overlap strictly; its properties are stated by TagLayout.OverlapsSymmetricStrict |
| TagLayout.OverlapsSymmetricStrict | DunningKruger/Utilities/TagLayoutEngine.swift:87-93 | overlap is symmetric, and rectangles whose edges merely touch do not overlap |
| TagLayout.Push | DunningKruger/Utilities/TagLayoutEngine.swift:66-74 | only the offset changes; it is unchanged without overlap; the side is kept; each remaining attempt adds at most 0.05 to the magnitude; if the rectangles still overlap, every attempt was used |
| TagLayout.Settle | DunningKruger/Utilities/TagLayoutEngine.swift:57-75 | handling one neighbour changes only the offset, nothing without overlap; the magnitude stays at least 0.10 and at most 0.25 above what it was; the flip to the neighbour's opposite side is stated by TagLayout.SettleEndsOppositeNeighbour |
| TagLayout.SettleEndsOppositeNeighbour | DunningKruger/Utilities/TagLayoutEngine.swift:57-75 | after an overlap the tag ends on the side of the curve opposite the neighbour: flipped if it was on the same side, kept if it was already on the other |
| TagLayout.SettleDown | DunningKruger/Utilities/TagLayoutEngine.swift:56-76 | settling against neighbours j down to lo changes only the offset and adds at most 0.25 per neighbour to its magnitude |
| TagLayout.SettleAgainst | DunningKruger/Utilities/TagLayoutEngine.swift:57-75 | the flip-and-push loop for one neighbour computes Settle |
| TagLayout.PlaceTag | DunningKruger/Utilities/TagLayoutEngine.swift:56-76 | the loop over the preceding sorted positions computes PlaceNext |
| TagLayout.PlaceNext | DunningKruger/Utilities/TagLayoutEngine.swift:56-76 | tag i settled against sorted positions i − 1 down to max(0, i − 4); its contract is stated by TagLayout.PlaceNextBounded and TagLayout.PlaceNextWindow |
| TagLayout.PlaceNextBounded | DunningKruger/Utilities/TagLayoutEngine.swift:56-76 | placing a tag keeps its box, and a tag starting at +0.10 ends 0.10 to 0.10 + 4·5·0.05 = 1.10 from the curve |
| TagLayout.SweepSpec | DunningKruger/Utilities/TagLayoutEngine.swift:55-77 | the sweep yields one rectangle per input rectangle |
| TagLayout.SweepKeepsBoxes | DunningKruger/Utilities/TagLayoutEngine.swift:55-77 | the sweep changes only offsets, and the leftmost tag is never moved |
| TagLayout.SweepOffsetsBounded | DunningKruger/Utilities/TagLayoutEngine.swift:47-77 | starting from +0.10 everywhere, every tag ends 0.10 to 1.10 from the curve |
| TagLayout.SweepSpecSnoc | DunningKruger/Utilities/TagLayoutEngine.swift:55-56 | the sweep of the first i + 1 tags is the sweep of the first i plus the placement of tag i against them |
| TagLayout.Sweep | DunningKruger/Utilities/TagLayoutEngine.swift:55-77 | the nested loops over sorted positions compute SweepSpec |
| TagLayout.SweepPrefix | DunningKruger/Utilities/TagLayoutEngine.swift:55-56 | the sweep of a prefix is the prefix of the sweep: a tag is never affected by tags to its right |
| TagLayout.SweepStep | DunningKruger/Utilities/TagLayoutEngine.swift:55-56 | tag i is placed against the already placed tags 0 .. i − 1 |
| TagLayout.PlaceNextWindow | DunningKruger/Utilities/TagLayoutEngine.swift:56 | a tag's placement depends only on positions i − 1 down to max(0, i − 4) |
| TagLayout.SettleDownNoOverlap | DunningKruger/Utilities/TagLayoutEngine.swift:57 | without overlap against any compared neighbour the tag is unchanged |
| TagLayout.IsolatedTagKeepsOffset | DunningKruger/Utilities/TagLayoutEngine.swift:55-57 | a tag whose x-range strictly meets none of its ≤ 4 sorted predecessors keeps its rectangle and so +0.10 |
| TagLayout.StackedTagsMayStillOverlap | DunningKruger/Utilities/TagLayoutEngine.swift:55-77 | three tags at one point: the second and third both end at −0.10 and still overlap |
| TagLayout.Scatter | DunningKruger/Utilities/TagLayoutEngine.swift:80-83 | writing back keeps the length; slots no rectangle names keep their value; with distinct indices each rectangle's slot holds its offset |
| TagLayout.DistinctIndicesPermutation | DunningKruger/Utilities/TagLayoutEngine.swift:52 | reordering the rectangles keeps their indices pairwise distinct |
| TagLayout.ResolveOverlaps | DunningKruger/Utilities/TagLayoutEngine.swift:31-85 | the result has one offset per tag |
| TagLayout.ResolveOverlapsPlacesEveryTag | DunningKruger/Utilities/TagLayoutEngine.swift:31-85 | with distinct indices, slot tags[p].index holds the offset the sweep computed for tag p's own rectangle, and that offset's magnitude lies between 0.10 and 1.10 |
| TagLayout.ResolveOverlapsSmall | DunningKruger/Utilities/TagLayoutEngine.swift:34-47 | no tags give no offsets, and a single tag gets +0.10 |
| People.NewPerson | DunningKruger/Models/Person.swift:3-12 | a new person's tagOffset defaults to 0, and the id, name, colour index and position are the given ones |
| People.Initials | DunningKruger/Models/Person.swift:14-20 | initials have at most two characters and contain no lowercase ASCII letter |
| People.InitialsOfTwoWords | DunningKruger/Models/Person.swift:15-18 | with at least two space-separated words, the initials are the uppercased first characters of the first two words, the first being the name's first non-space character |
| People.InitialsOfNamedWords | DunningKruger/Models/Person.swift:14-18 | for a name of two space-separated words, possibly followed by a space and more, the initials are the uppercased first letters of those two words |
| People.InitialsOfOneWord | DunningKruger/Models/Person.swift:19 | otherwise they are the uppercased first two characters of the raw name (fewer if it is shorter) |
| People.ColorIn | DunningKruger/Models/Person.swift:23-25 | the person's colour is the theme's palette entry at colorIndex modulo the palette size |
| Text.Upper | DunningKruger/Views/PersonMarkerView.swift:120 | uppercasing keeps the length and maps each character through ASCII uppercasing |
| Text.UpperIdempotent | DunningKruger/Views/PersonMarkerView.swift:57 | an uppercased string has no lowercase ASCII letter, so uppercasing again changes nothing |
| Text.Trim | DunningKruger/Models/ChartViewModel.swift:11 | the trimmed name is no longer than the name and neither starts nor ends with whitespace |
| Text.TrimIsSlice | DunningKruger/Models/ChartViewModel.swift:11 | the trimmed name is a contiguous slice of the name, and everything cut off either end is whitespace |
| Text.TrimEmptyIffBlank | DunningKruger/Models/ChartViewModel.swift:11-12 | the trimmed name is empty exactly when the name is all whitespace |
| Text.SplitSpaces | DunningKruger/Models/Person.swift:15 | every part of a split is non-empty and holds no space; that the parts are the maximal words is stated by Text.SplitSpacesWords |
| Text.SplitSpacesSkipsSpace | DunningKruger/Models/Person.swift:15 | a space only separates: a leading space adds no part |
| Text.SplitSpacesWords | DunningKruger/Models/Person.swift:15 | the parts are the maximal words: a non-empty space-free word splits into itself, and one followed by a space comes out whole ahead of the parts of the rest |
| Text.SplitSpacesConcat | DunningKruger/Models/Person.swift:15 | concatenating the parts gives the name without its spaces, so nothing but spaces is lost |
| Text.SplitSpacesFirst | DunningKruger/Models/Person.swift:15-17 | there is a part exactly when the name has a non-space character, and the first part starts with it |
| Theme.DisplayName | DunningKruger/Theme/ChartTheme.swift:30-32 | the label's length is the emoji's, one space and the raw value's |
| Theme.DisplayNameParts | DunningKruger/Theme/ChartTheme.swift:30-32 | the label is the emoji, a space and the raw value, and different themes get different labels |
| Theme.Palette | DunningKruger/Theme/ChartTheme.swift:121-130 | every palette has eight colours |
| Theme.ThemeFor | DunningKruger/Theme/ChartTheme.swift:281-288 | the factory returns the theme with the requested id, eight marker colours and a positive pixel size |
| Theme.OnlyZxIsRetro | DunningKruger/Theme/ChartTheme.swift:136-145 | exactly the 8-bit theme uses the pixel font, bracket buttons, square borders and the CRT scanline overlay |
| Theme.MarkerColor | DunningKruger/Theme/ChartTheme.swift:91-93 | the colour is always one of the palette's, and the palette's own entry for an index inside it |
| Theme.MarkerColorPeriodic | DunningKruger/Theme/ChartTheme.swift:91-93 | the palette cycles with period equal to its size |
| Theme.ButtonTextsFollowBrackets | DunningKruger/Theme/ChartTheme.swift:95-97 | the add, share and remove labels depend only on bracketButtons, and the two styles never coincide |
| PixelFont.GlyphTable | DunningKruger/Views/PersonMarkerView.swift:8-53 | the font has a glyph for exactly A–Z, 0–9 and ". - ! ? space", each five rows of three pixels |
| PixelFont.GlyphFor | DunningKruger/Views/PersonMarkerView.swift:58 | the looked-up glyph is 5×3, is the character's own when it has one, and is the '?' glyph otherwise |
| PixelFont.CharGrids | DunningKruger/Views/PersonMarkerView.swift:57-58 | one glyph per character, that of the uppercased character |
| PixelFont.RenderSpec | DunningKruger/Views/PersonMarkerView.swift:60-67 | empty text renders as an empty grid; otherwise five rows, each 4n − 1 pixels wide |
| PixelFont.RenderPlacesGlyphs | DunningKruger/Views/PersonMarkerView.swift:67-74 | pixel (r, 4·ci + c) for c < 3 is pixel (r, c) of character ci's glyph, and gap columns stay off |
| PixelFont.RenderIgnoresCase | DunningKruger/Views/PersonMarkerView.swift:57 | rendering uppercases first, so the text and its uppercased form render alike |
| PixelFont.UnknownRendersAsQuestionMark | DunningKruger/Views/PersonMarkerView.swift:58 | a character without a glyph renders as '?' |
| PixelFont.PlaceRow | DunningKruger/Views/PersonMarkerView.swift:71-73 | copying one glyph row writes exactly its three pixels and nothing else |
| PixelFont.Render | DunningKruger/Views/PersonMarkerView.swift:56-77 | the renderer's nested loops produce the pixel-by-pixel grid |
| MarkerView.DisplayName | DunningKruger/Views/PersonMarkerView.swift:119-123 | the display name has min(length, 12) characters, so never more than 12 |
| MarkerView.DisplayNameShows | DunningKruger/Views/PersonMarkerView.swift:119-123 | a name of at most 12 characters is shown whole and uppercased; a longer one shows its first 11 characters uppercased and then '…' |
| MarkerView.DisplayNameKeepsPrefix | DunningKruger/Views/PersonMarkerView.swift:122 | long names that agree on their first 11 characters are displayed alike |
| MarkerView.DisplayNameIdempotent | DunningKruger/Views/PersonMarkerView.swift:119-123 | the display name of a display name is itself |
| MarkerView.EstimatedTagHalfWidth | DunningKruger/Views/PersonMarkerView.swift:191-206 | the half-width estimate from min(length, 12) characters in the system or the pixel font; its contract is stated by MarkerView.EstimatedTagHalfWidthMonotone |
| MarkerView.EstimatedTagHalfWidthMonotone | DunningKruger/Views/PersonMarkerView.swift:191-206 | the estimate depends only on min(length, 12), never decreases as the length grows, and is at least 16 (pixel font) or 14 points |
| MarkerView.EstimateCoversPixelTag | DunningKruger/Views/PersonMarkerView.swift:135-137 | for a non-empty name the estimate is half the pixel tag's frame width plus 12 points plus half a pixel |
| MarkerView.SnapPosition | DunningKruger/Views/PersonMarkerView.swift:221-234 | a normalized x lands between the left and right padding, x = 0 and 1 on the paddings themselves; y is flipped, y = 1 mapping to the top padding line and y = 0 to the bottom one |
| MarkerView.TagPosition | DunningKruger/Views/PersonMarkerView.swift:237-247 | the tag's x is max(minX, min(dot x, maxX)) in each of the three cases: the dot's x when in range, minX left of it, max(minX, maxX) right of it; so it is at least minX and at most maxX when minX ≤ maxX. Its y is the dot's y raised by the offset times the drawable height |
| MarkerView.TagSitsOffsetFromDot | DunningKruger/Views/PersonMarkerView.swift:245 | a positive offset puts the tag above the dot and a negative one below it |
| MarkerView.LaidOutTagsShowLeaderLines | DunningKruger/Views/PersonMarkerView.swift:276 | after a layout every tag is more than 0.01 from its dot, so its leader line is drawn |
| MarkerView.DragAspect | DunningKruger/Views/PersonMarkerView.swift:324 | the aspect ratio times max(drawable height, 1) is the drawable width: the width itself when the height is at most 1, width / height otherwise; it is non-negative exactly when the width is |
| MarkerView.DragEndTarget | DunningKruger/Views/PersonMarkerView.swift:313-316 | the reported normalized point maps back to the pixel where the finger lifted, x directly and y through the flip |
| MarkerView.DragEndInvertsSnapPosition | DunningKruger/Views/PersonMarkerView.swift:311-316 | the reported point maps back through snapPosition to where the finger lifted, and with no translation it is the person's position |
| ChartModel.Initial | DunningKruger/Models/ChartViewModel.swift:5-7 | the view-model starts with nobody and counter 0, satisfying the invariant |
| ChartModel.Tags | DunningKruger/Models/ChartViewModel.swift:45-48 | the engine input is one tag per person, with index i, and the indices are in range and distinct |
| ChartModel.Relayout | DunningKruger/Models/ChartViewModel.swift:42-54 | laying out changes only tag offsets, and afterwards every offset is the engine's output at that position |
| ChartModel.LaidOutUnique | DunningKruger/Models/ChartViewModel.swift:45-53 | two laid-out lists that agree on everything but offsets are equal |
| ChartModel.RelayoutIdempotent | DunningKruger/Models/ChartViewModel.swift:45-53 | re-running the layout on a laid-out list changes nothing, because offsets are not an input |
| ChartModel.RelayoutOffsetsBounded | DunningKruger/Models/ChartViewModel.swift:50-53 | after a layout each tag is 0.10 to 1.10 from its marker, at the offset computed for that person's own rectangle |
| ChartModel.AddPerson | DunningKruger/Models/ChartViewModel.swift:10-28 | a name blank after trimming changes nothing; otherwise the list grows by exactly one person and the counter by one |
| ChartModel.AddPersonAppends | DunningKruger/Models/ChartViewModel.swift:14-27 | for a non-blank name the people already there change only in offset, and the new last person has the fresh id, the trimmed name, the old counter as colour index and x = the random draw, and lies on the curve; the list is laid out |
| ChartModel.AddPersonPreservesValid | DunningKruger/Models/ChartViewModel.swift:14-26 | adding with a fresh id keeps ids distinct and colour indices distinct and below the counter |
| ChartModel.AddPersonKeepsOnCurve | DunningKruger/Models/ChartViewModel.swift:18-26 | adding keeps every person on the curve |
| ChartModel.FirstPersonAtBaseOffset | DunningKruger/Models/ChartViewModel.swift:10-28 | the first person added to an empty chart gets offset +0.10 and the counter becomes 1 |
| ChartModel.Without | DunningKruger/Models/ChartViewModel.swift:31 | the filtered list is no longer and holds nobody with the id |
| ChartModel.WithoutAppend | DunningKruger/Models/ChartViewModel.swift:31 | filtering distributes over concatenation, so the survivors keep their order |
| ChartModel.WithoutMembers | DunningKruger/Models/ChartViewModel.swift:31 | an entry survives exactly when it was in the list with another id |
| ChartModel.WithoutAbsent | DunningKruger/Models/ChartViewModel.swift:31 | removing an id nobody has changes nothing |
| ChartModel.WithoutKeepsDistinct | DunningKruger/Models/ChartViewModel.swift:31 | filtering keeps ids and colour indices pairwise distinct |
| ChartModel.RemovePerson | DunningKruger/Models/ChartViewModel.swift:30-33 | removing leaves the filtered list, changed only in offsets, with nobody carrying the id, laid out, and the counter unchanged |
| ChartModel.RemovePersonPreservesValid | DunningKruger/Models/ChartViewModel.swift:30-33 | removing keeps ids distinct and colour indices distinct and below the counter |
| ChartModel.RemovePersonKeepsOnCurve | DunningKruger/Models/ChartViewModel.swift:30-33 | removing keeps everybody on the curve |
| ChartModel.FirstIndexOf | DunningKruger/Models/ChartViewModel.swift:36 | no index exactly when nobody has the id; otherwise the first position with it |
| ChartModel.UpdatePosition | DunningKruger/Models/ChartViewModel.swift:35-40 | an unknown id changes nothing; otherwise only the first match's position changes (to the nearest-point answer), everything else changes only in offset, the list is laid out and the counter is unchanged |
| ChartModel.UpdatePositionPreservesValid | DunningKruger/Models/ChartViewModel.swift:35-40 | moving keeps ids distinct and colour indices distinct and below the counter |
| ChartModel.UpdatePositionKeepsOnCurve | DunningKruger/Models/ChartViewModel.swift:35-40 | moving keeps everybody on the curve when the nearest-point answer is on it |
| ChartModel.ApplyOffsets | DunningKruger/Models/ChartViewModel.swift:51-53 | the write-back loop sets each person's offset to the engine's and changes nothing else |
| ChartModel.RelayoutPeople | DunningKruger/Models/ChartViewModel.swift:42-54 | the layout step with its loop computes Relayout |
| CurveShape.PtRoundTrip | DunningKruger/Views/DKCurveShape.swift:9-11 | on a non-degenerate rectangle the normalized-to-pixel mapping is invertible |
| CurveShape.CurvePath | DunningKruger/Views/DKCurveShape.swift:4-27 | no segments give an empty path; otherwise one move and one cubic per segment |
| CurveShape.CurvePathFollowsSegments | DunningKruger/Views/DKCurveShape.swift:16-24 | for contiguous segments each cubic starts where the pen stands, which is its segment's start, and uses its segment's control points |
| CurveShape.CanonicalPathSpansWidth | DunningKruger/Views/DKCurveShape.swift:13-24 | the curve is drawn from the rectangle's left edge to its right edge |
| CurveShape.BuildCurvePath | DunningKruger/Views/DKCurveShape.swift:15-26 | the loop builds CurvePath |
| CurveShape.GridLinesSpec | DunningKruger/Views/DKCurveShape.swift:37-47 | nine vertical lines and seven horizontal lines, two commands each |
| CurveShape.BuildGridLines | DunningKruger/Views/DKCurveShape.swift:37-47 | each of the two loops emits its lines 1 .. n − 1 in order |
| CurveShape.GridLines | DunningKruger/Views/DKCurveShape.swift:32-50 | the grid is the vertical lines then the horizontal ones, 32 commands |
| CurveShape.GridLinesInside | DunningKruger/Views/DKCurveShape.swift:37-47 | every grid line runs edge to edge strictly inside the rectangle, and neighbours are a tenth or an eighth of the side apart |
| ChartLayout.ChartPad | DunningKruger/Views/ChartView.swift:10-12 | the padding is 28 exactly below 500 points of width, else 44 |
| ChartLayout.PhaseFontSize | DunningKruger/Views/ChartView.swift:15-17 | 9 points exactly below 400 points of width, 11 from 400 up to 600, and 13 exactly from 600 |
| ChartLayout.AxisFontSize | DunningKruger/Views/ChartView.swift:20-22 | 8 points exactly below 400 points of width, 10 from 400 up to 600, and 11 exactly from 600 |
| ChartLayout.SizesGrowWithWidth | DunningKruger/Views/ChartView.swift:10-22 | padding and both font sizes never shrink as the width grows, and axis labels are always smaller than phase labels |
| ChartLayout.ScanlineCount | DunningKruger/Views/ChartView.swift:275-281 | the number of scanlines is the least n with 3n ≥ height |
| ChartLayout.Scanlines | DunningKruger/Views/ChartView.swift:275-281 | the loop draws that many rows, row i at y = 3i, all in [0, height) |

## Left out

- `nearestPoint(to:aspectRatio:)` is called by `updatePosition` but is not part of this model. `ChartModel.UpdatePosition` takes it as a function parameter and assumes nothing about it.
- `CGFloat.random(in:)` and `UUID()` are parameters of `ChartModel.AddPerson`: the random x, with its range 0.1...0.9 as a precondition, and the fresh id.
- Floating point is modelled as exact real arithmetic: no rounding, infinities or NaN.
- Swift's `sort` is not documented as stable. The model uses a stable insertion sort, so the order of samples or tags with equal x may differ from the app's. The sweep properties other than the engine's end-to-end results hold for any x-sorted order.
- Text handling is ASCII: `uppercased()` maps only `a`–`z`, and lengths count Unicode scalars rather than grapheme clusters. `.whitespaces` is modelled as tab plus the Unicode space separators.
- Theme.MarkerColor: requires a non-negative index. Swift's `%` gives a negative remainder for a negative index and would trap, and the view-model only hands out indices from 0 upwards.
- MarkerView.DragEndTarget: requires a non-zero drawable width and height, for the reason on the next line.
- MarkerView.DragEndInvertsSnapPosition: holds only for a non-zero drawable width and height. With a zero size the app divides by zero and reports an infinite or NaN point.
- People.ColorIn: requires a non-negative colour index, as Theme.MarkerColor does, which it forwards to.
- TagLayout.ResolveOverlapsPlacesEveryTag: requires pairwise distinct tag indices in 0 ..< n. Out-of-range indices trap in the app, and with duplicates the last write wins, which the model does not characterise.
- ChartModel.AddPersonPreservesValid: requires the new id to differ from all existing ids, which `UUID()` provides in practice.
- The `ChartViewModel` class methods only delegate to the functions on `ChartState`. Their contracts relate the state before and after the call. `AddPersonNamed` requires the id to be fresh, standing for `UUID()`. The class invariant holds the ids, colour indices and layout, but not that everybody is on the curve: `updatePosition` puts a person wherever `nearestPoint` answers, and that function is not part of this model.
- All SwiftUI rendering is out of scope: colours, fonts, shadows, animations, gradients, the drag display state, `PixelArtView`'s drawing loop, `StaticMarkerView` (the same arithmetic with `drawW`), `ContentView`, export and sharing, `ThemeManager` and the app entry point.
- Theme fields that no modelled logic reads are left out: titles, taglines, styling numbers and the colour values themselves. Colours are opaque palette slots.
- Zone names, status messages and `randomizeAll` do not appear in the modelled files.
