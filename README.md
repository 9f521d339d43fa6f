# EdvenJS raycaster, modelled in Dafny

EdvenJS is a browser quiz maze. The player walks a grid maze drawn in
first person by a raycaster. Question marks and answer tiles on the map
belong to the active question, and traps can send the player to another
destination. This project models the logic of its core in Dafny and proves
properties of that model:

- **The raycaster** (`Maze`, `WallHits`, `Trig`, `MazeGlobals`):
  - the angle units: ANGLE60 = 320 columns, one maze unit per column, ANGLE360 = 1920;
  - the trig tables and the quadrant sign rule of the two step tables;
  - the two grid-line walks of `castRayForHorizHit` and `castRayForVertHit`, and the choice of the nearer hit;
  - the slice drawing of `drawWallSlice` and `drawVertLine`, and the 320-column sweep of `renderOneFrame`;
  - turning, and the wall-checked moves of `attemptMove`.
- **The tile grids** (`TileGrid`, `MapData`, `PropData`, `QuestionPosData`):
  - index and shift arithmetic and bounds-checked lookups;
  - the map-file parser;
  - the question-tile classification.
- **Prop placement** (`PropHitItem`): where a prop stands relative to the player, as distance and screen column.
- **Configuration** (`IniFile`, `MazeConfig`, `Traps`, `Dests`, `Questions`, `Question`): the INI parser, range-checked values, and the trap, destination and question records.
- **Pixel buffers** (`Pixels`, `Background`, `Overlay`, `Landscape`): the in-place RGBA buffer operations.
- **Utilities** (`MathUtils`, `JsAddOns`, `TextAreaBox`, `OpeningCredits`): base-36 digits, the array polyfills, word wrap and the stop watch.

The JavaScript semantics the code relies on are written out in module
`Js`. `~~x`, `x >> k` and `x << k` truncate and wrap to 32 bits, and `%`
keeps the sign of its dividend. A NaN is an absent value. Reading past the
end of an array gives `undefined`. A call that throws has an `Outcome` of
`Throws`. The string operations the parsers share (line splitting, the
comment-stripping regular expression, trimming, `parseInt`) are in
`JsText`.

Each class the source updates in place is a Dafny class, and its methods
are proved against specification functions. For example:

- `Maze.Maze.RenderOneFrame` leaves the frame buffer equal to `FrameImage` of the scene.
- Lemmas about `FrameImage` then say what each column shows.

The code is modelled as it is written, including these behaviours of the code as written:

- **The hit type is undefined.** Both casts build their hit with `WallHitItem.prototype.HORIZ_HIT` or `VERT_HIT`. Those constants do not exist on the prototype, so the hit type is undefined, and both walks find their tile by the vertical rule (`Maze.UndefinedHitTypeIsVertical`). As a result, each walk is bounded by the map's width (`Maze.CastLength`).
- **The face test always passes.** The test in `drawWallSlice` always holds, so the texture column is never mirrored.
- **The third move attempt never moves.** `attemptMove` bounds it by the undefined `getMapHeight`, so it never moves the player (`Maze.ThirdAttemptNeverMoves`).
- **`Trig.radToDegrees` is not defined.** An off-axis prop therefore makes `setPropHitItemData` throw a TypeError, unless a host function is supplied.
- **Three error branches throw.** `isLineLengthGood`, `getTrap` and `returnQuestion` each reach an undeclared variable or a strict-mode property write, and each of these throws. The model's outcome is the exception.

`Maze.js` carries a copy of the `createTables` code of `Trig.js`. Both are
modelled once, by `Trig.TrigTables`.

## Model

| member | source | states |
|---|---|---|
| MazeGlobals.ScreenConstants | MazeGlobals.js:9-21 | the screen is 320 by 200 pixels, 64000 in all, and a tile of 64 is 2^6 |
| Trig.Round | Trig.js:23-27 | Math.round gives the integer within half a unit of its argument, halves rounding up |
| Trig.AngleValues | Trig.js:21-41 | the rounded angle constants are ANGLE60 = 320, ANGLE30 = 160, ANGLE90 = 480, ANGLE180 = 960, ANGLE270 = 1440, ANGLE360 = 1920 = 6 * ANGLE60, ANGLE5 = 27, ANGLE10 = 54, ANGLE45 = 243 and the derived 85/95/135/175/185/225/265/275/315/355 angles |
| Trig.XStep | Trig.js:85-97 | the x step is at most 0 for angles in [ANGLE90, ANGLE270) and at least 0 otherwise, and its magnitude is that of 64 / tan |
| Trig.YStep | Trig.js:99-111 | the y step is at least 0 for angles in [ANGLE0, ANGLE180) and at most 0 otherwise, and its magnitude is that of 64 * tan |
| Trig.DegreesToMazeAngleUnits | Trig.js:135-139 | for degrees in [0, 10^8) the result is the integer part of 320 * degrees / 60, that is of 16 * degrees / 3 |
| Trig.DegreesLandmarks | Trig.js:135-139 | 60 degrees convert to ANGLE60, 360 degrees to ANGLE360 and 45 degrees to 240 |
| Trig.DegreesMonotone | Trig.js:135-139 | the conversion never decreases as the angle in degrees grows |
| Trig.DegreesInOneTurn | Trig.js:135-139 | every whole degree 0..359 converts to a maze angle in [0, ANGLE360) |
| Trig.TrigTables.constructor | Trig.js:59-119 | `createTables` gives each angle table ANGLE360 + 1 entries and the fish table ANGLE60 + 1; entry i is the host's sin, cos or tan of arcToRad(i) + 0.0001, each reciprocal table holds 1 / entry, the step tables hold the sign-forced steps, and fish entry k is 1 / cos(arcToRad(k - ANGLE30)) |
| Trig.TrigTables.FillTable | Trig.js:74-83 | a fresh table of ANGLE360 + 1 entries of the host function at the nudged radian, and its table of reciprocals |
| Trig.TrigTables.FillSteps | Trig.js:85-111 | fresh x and y step tables of ANGLE360 + 1 entries, each entry the sign-forced step for its angle's tangent |
| Trig.TrigTables.FillFish | Trig.js:114-118 | a fresh table of ANGLE60 + 1 entries, entry k being 1 / cos of the relative angle k - ANGLE30 |
| Trig.FishCentre | Trig.js:114-118 | the centre fish entry, for relative angle 0, is 1 when the host's cos(0) is 1 |
| MathUtils.Base10ToBase36 | MathUtils.js:13-22 | above 9 the result is the one-character string with code 'a' + (i - 10); at 9 or below it is the number itself |
| MathUtils.Base36ToBase10 | MathUtils.js:28-40 | by the first UTF-16 code unit: a digit character gives its value; any code above '9' gives code - 'a' + 10, so upper case and ':' to '`' give values below 10 and codes past 'z' values above 35; an empty string or a code below '0' gives 0 |
| MathUtils.LetterRoundTrip | MathUtils.js:13-40 | for 10..35 the letter base10ToBase36 returns reads back as the same number |
| MathUtils.DigitRoundTrip | MathUtils.js:13-40 | for 0..9 base10ToBase36 returns the number, and its digit reads back as the same number |
| MathUtils.LogarithmBaseTwo | MathUtils.js:46-72 | for num = 2^k with 1 <= k <= 10 the result is k; for every other input it is 6 |
| MathUtils.LogOfOne | MathUtils.js:46-72 | 1 is not among the listed powers, so its logarithm comes out as 6 |
| TileGrid.ConvertPointToMapPos | PropData.js:118-121 | for a row y whose start y * 2^shift stays below 2^30, the position is y * 2^shift + x |
| TileGrid.GetValue | PropData.js:108-112 | '0' outside [0, height << shift); inside, the stored tile, or undefined past the end of the array |
| TileGrid.IsOccupied | PropData.js:100-103 | the test is true unless the position holds '0', so positions outside the array count as occupied |
| TileGrid.ConvertInverts | PropData.js:118-121 | within a row, `p >> shift` gives back the row and `p % 2^shift` the column |
| TileGrid.ConvertAliasesNextRow | PropData.js:118-121 | no column check: column 2^shift of row y is the same position as column 0 of row y + 1 |
| TileGrid.Concat | PropData.js:155-156 | the rows concatenated in order; no rows make the empty string |
| TileGrid.ConcatLength | PropData.js:155-156 | rows of one width w concatenate to rows * w tiles |
| TileGrid.ConcatIndex | PropData.js:155-156 | row y, column x of equal-width rows is tile y * w + x of their concatenation |
| TileGrid.ConcatSnoc | PropData.js:155-156 | appending a row to the list appends its text to the concatenation |
| TileGrid.KeepLine | PropData.js:134-137 | a raw line counts exactly when it is non-empty and still non-empty with its comments removed, and it then contributes its comment-free text |
| TileGrid.KeptAppend | PropData.js:133-137 | the lines that count in two stretches of a file are those of each stretch, in order |
| TileGrid.LeadingWidth | PropData.js:139-154 | the leading run of lines of width w: all of them have width w and the first line after the run does not |
| TileGrid.LeadingWidthAppend | PropData.js:139-154 | a run of width-w lines followed by more lines extends the leading run by its own length |
| TileGrid.ScanSpecStopsEarly | PropData.js:139-154 | once the scan breaks, the lines after the one it stopped at do not matter |
| TileGrid.KeptStep | PropData.js:133-137 | one more raw line adds its cleaned text to the lines that count, or nothing |
| TileGrid.AcceptLine | PropData.js:138-156 | a line of the first line's width is counted, and its lower-cased text is appended |
| TileGrid.ScanSpecAllRead | PropData.js:133-157 | a scan that reads every line ends in the specification's state |
| TileGrid.ScanLines | PropData.js:128-157 | the parse loop's line count, width and collected text are the specification's scan of the lines that count in the split text |
| TileGrid.FirstMismatch | PropData.js:148-153 | a line whose width differs from the first line's is counted, stops the scan, and leaves the text of the lines before it |
| TileGrid.ScanSpecFacts | PropData.js:128-157 | the scan throws exactly when the first counted line has a width that is not 16, 32, 64, 128 or 256; otherwise that width is kept, the committed lines all have it and their lower-cased text, width tiles per line, is the file; a full read counts every line, a mismatch counts the offending line; an empty file gives width -1 and no text |
| TileGrid.IgnoredLine | PropData.js:135-137 | an empty line, or one that is empty once comments are removed, changes nothing |
| TileGrid.CommentLineIgnored | PropData.js:136-137 | a line holding only a `//` comment is ignored |
| TileGrid.IsLineLengthGood | PropData.js:188-197 | true exactly for 16, 32, 64, 128 and 256; any other width throws a ReferenceError (`that` is undeclared under strict mode) and false is never returned |
| TileGrid.CommittedShape | PropData.js:139-168 | after a parse that did not throw, 2^mapWidthShift is the width, the committed rows fill `rows << shift` tiles, and after a mismatch `mapHeight << shift` is one row more than the tiles stored |
| TileGrid.ScanShape | PropData.js:139-168 | the same shape facts, stated for any scan with that shape |
| TileGrid.ShlByGoodWidth | PropData.js:142 | for an accepted width w, 2^logarithmBaseTwo(w) is w and `c << logarithmBaseTwo(w)` is c * w |
| TileGrid.CompleteGridLookups | PropData.js:108-112 | after a full read, each position below `mapHeight << shift` holds a stored tile |
| TileGrid.MismatchLastRowUndefined | PropData.js:148-168 | after a mismatch, the last row below `mapHeight << shift` lies past the stored tiles: it reads as undefined and counts as occupied |
| TileGrid.LookupImage | PropData.js:234-240 | the image stored under the key when there is one, otherwise null |
| MapData.IsWall | MapData.js:49-51 | every position is a wall except one that holds '0', including positions outside the array |
| MapData.GetValue | MapData.js:56-59 | '0' outside [0, mapHeight << mapWidthShift), and the stored tile inside |
| MapData.ConvertPointToMapPos | MapData.js:65-67 | y * 2^mapWidthShift + x in the usual range |
| MapData.DefaultShape | MapData.js:10-27 | the built-in map's 8 columns are 2^3, it has 8 rows and 64 tiles, and `8 << 3` is 64 |
| MapData.DefaultTile | MapData.js:20-27 | tile (x, y) of the built-in map is at y * 8 + x and is a wall exactly when row y's character x is not '0' |
| MapData.DefaultBorderIsWall | MapData.js:20-27 | every border tile of the built-in map is a wall |
| MapData.PlayerStartIsOpen | MapData.js:20-27 | the player's start (80, 224) is in tile column 1, row 3, which is open floor |
| TileGrid.ScanLine | PropData.js:134-156 | one pass of the loop body: when it breaks, the result is the scan of the lines so far, this one if it counts, and any that follow; otherwise the scan invariant holds with this line added if it counts |
| TileGrid.KeptNonEmpty | PropData.js:135-137 | no line that counts is empty |
| TileGrid.KeptByAppend | PropData.js:133-137 | filtering two stretches of lines one after the other gives the filtered lines of each, in order |
| TileGrid.AllWidthSnoc | PropData.js:148-156 | appending a row of the common width keeps all rows of that width |
| TileGrid.LookupInside | PropData.js:108-112 | a position inside a fully stored grid gives its stored tile |
| JsText.FirstBreak | PropData.js:132 | the first '\r' or '\n' at or after i, or the end: no break lies before it |
| JsText.SplitLines | PropData.js:132 | `split(/\r\n\|\r\|\n/)` yields at least one piece, and no piece holds a line break |
| JsText.SplitLinesJoin | PropData.js:132 | without carriage returns, joining the pieces with "\n" gives the text back |
| JsText.SplitLinesOfJoin | PropData.js:132 | joining break-free lines with "\n" and splitting again gives the same lines |
| JsText.FirstBreakAt | PropData.js:132 | an index with no break before it and a break (or the end) at it is the first break |
| JsText.FirstOf | TextAreaBox.js:119 | the first occurrence of the separator at or after i, or the end |
| JsText.SplitOn | TextAreaBox.js:119 | `split(" ")` yields at least one piece, and no piece holds the separator |
| JsText.SplitOnJoin | TextAreaBox.js:119 | joining the pieces with the separator gives the text back |
| JsText.CloseAt | PropData.js:136 | the first `*/` at or after i, or none when there is no `*/` left |
| JsText.StripComments | PropData.js:136 | removing comments never lengthens the line |
| JsText.StripCommentsNoSlash | PropData.js:136 | a line with no '/' holds no comment and is kept as it is |
| JsText.StripCommentsPrefix | PropData.js:136 | text before the first '/' survives and the rest is stripped on its own |
| JsText.LineCommentRemoved | PropData.js:136 | a line that is only a `//` comment becomes empty |
| JsText.LowerChar | PropData.js:155 | an ASCII capital moves to its lower-case letter and every other character is kept |
| JsText.Lower | PropData.js:155 | the lower-cased string has the same length and each character is lower-cased in place |
| JsText.LowerAppend | PropData.js:155-156 | lower-casing distributes over concatenation |
| JsText.SkipSpace | IniFile.js:66-67 | the first character at or after i that is not `\s`, with only `\s` before it |
| JsText.TrimStart | IniFile.js:66-67 | a suffix of the text: every character dropped is white space and the first one kept, if any, is not |
| JsText.EndOfText | IniFile.js:66-67 | the length of the text without its trailing `\s` characters |
| JsText.TrimEnd | IniFile.js:66-67 | a prefix of the text: every character dropped is white space and the last one kept, if any, is not |
| JsText.DigitRun | MazeConfig.js:109-112 | the leading run of decimal digits: all digits, and no digit after it |
| JsText.ParseIntDec | MazeConfig.js:109-112 | `parseInt(s, 10)` is a number exactly when, after leading white space and an optional sign, at least one digit follows |
| JsText.ParseIntValue | Questions.js:85-92 | an undefined property reads as NaN, a string as parseInt reads it |
| JsText.NatToString | Questions.js:72 | the decimal digits of a counter, at least one |
| JsText.DigitsOfNat | Questions.js:72 | the digits' value is the counter |
| JsText.ParseIntOfNat | Questions.js:72 | parseInt of a counter's decimal form is the counter |
| JsText.IntToString | Questions.js:72 | an integer's decimal form, as `"Question" + num` writes it, is never empty |
| JsText.ParseIntOfInt | MazeConfig.js:109-112 | parseInt reads an integer's decimal form back as that integer |
| JsText.DigitRunAll | MazeConfig.js:109-112 | a string of digits is one digit run |
| JsText.CodeUnit0 | MathUtils.js:31 | `charCodeAt(0)` of the empty string is NaN, otherwise a UTF-16 code unit, the character's own code below U+10000 |
| Js.SarRealOfNonNegative | Maze.js:552-553 | `x >> k` on a number first truncates it; for 0 <= x < 2^31 and a count in 0..31 the result is the floor of x divided by 2^k, never negative |
| IniFile.KeyEnd | IniFile.js:67 | the end of the run of `[\w.\-_]` characters starting at i: all before it are key characters, the one at it is not |
| IniFile.CloseBracket | IniFile.js:66 | the first ']' at or after i, or the end, with no ']' before it |
| IniFile.ParamValue | IniFile.js:67 | the value `\s*(.*?)\s*$` captures holds no line terminator and has no white space at either end |
| IniFile.MatchParam | IniFile.js:67 | a parameter line's key is a non-empty run of key characters and its value holds no line terminator |
| IniFile.MatchSection | IniFile.js:66 | a section name holds no ']' and does not start with white space |
| IniFile.Classify | IniFile.js:75-90 | the three expressions are tried in order: a comment exactly when the comment form matches; a parameter only when it is not a comment; a section only when neither of those matches; an empty line exactly when the cleaned line is empty |
| IniFile.ParseIniString | IniFile.js:64-93 | the object built is the fold of the line step over the split lines, from an empty object with no section open |
| IniFile.StepKeepsOpen | IniFile.js:73-91 | each line keeps the open section's object in place |
| IniFile.FoldKeepsOpen | IniFile.js:73-91 | so does every run of lines |
| IniFile.CommentIgnored | IniFile.js:75-76 | a comment line changes nothing |
| IniFile.ParamStored | IniFile.js:77-83 | a `key = value` line stores the value in the open section and leaves every other property alone, or stores it at the top level when no section is open |
| IniFile.SectionOpensFresh | IniFile.js:84-87 | a section header opens a fresh, empty section, replacing any earlier one of the same name |
| IniFile.EmptyLineCloses | IniFile.js:88-89 | a line that is empty once comments are removed closes the section |
| IniFile.BlankLineKeepsSection | IniFile.js:75-90 | a line of white space only matches none of the forms and is not empty, so it leaves the section open |
| IniFile.SkipAllSpace | IniFile.js:66-68 | white space only is skipped to its end |
| IniFile.LaterAssignmentWins | IniFile.js:77-80 | of two assignments to one key in the same section, the later one wins |
| IniFile.SkipSpaceAt | IniFile.js:66-68 | a position with only white space before it and none at it is where the skip stops |
| IniFile.KeyEndAt | IniFile.js:67 | a position with only key characters before it and none at it is where the key ends |
| IniFile.EndOfTextAt | IniFile.js:67 | a position with only white space after it and none just before it is where the text ends |
| IniFile.ParamValueOf | IniFile.js:67 | white space, a clean value and white space read back as that value |
| IniFile.ParamRoundTrip | IniFile.js:67 | `key = value` written with any white space around its parts reads back as that key and value |
| IniFile.NotComment | IniFile.js:68 | a line whose first non-space character is not ';' is no comment |
| IniFile.ClassifyParam | IniFile.js:75-83 | a line that is no comment and matches the parameter form is a parameter line |
| IniFile.MatchParamOf | IniFile.js:67 | a key after white space, then white space and '=', matches with that key and the value read from the rest |
| IniFile.SectionRoundTrip | IniFile.js:66 | `[name]` written with any white space around its parts reads back as that section name |
| IniFile.CloseBracketAt | IniFile.js:66 | a ']' with none before it is the first closing bracket |
| IniFile.BareParamLine | IniFile.js:67-83 | any line `key=value` with a key of word characters, dots and dashes and a value without line breaks or edge spaces is a parameter storing that value under that key, whatever brackets the value holds, because the parameter form is tried before the section form |
| IniFile.ParseLine | IniFile.js:73-91 | the per-line callback leaves the object and the open section exactly as the line step of the fold says |
| IniFile.SectionAt | IniFile.js:66 | a line `[...]` with white space only before the '[' and after the first ']' is a section line naming the bracketed text with its leading white space removed |
| IniFile.MatchParamAt | IniFile.js:67 | once the leading white space, the key and the white space before '=' are located, the parameter form matches with that key and the value read after the '=' |
| IniFile.ParamScan | IniFile.js:67 | in `ws1 + key + ws2 + "=" + rest` the scan finds the key right after ws1, its end right after it, and the '=' right after ws2 |
| IniFile.ParamNotComment | IniFile.js:68 | a line starting, after white space, with a key is not a comment |
| IniFile.NoParamAt | IniFile.js:67 | a line whose first non-space character is no key character does not match the parameter form |
| IniFile.SectionMatchAt | IniFile.js:66 | a '[' after leading white space, the first ']' after it and white space only after that match the section form with the trimmed bracketed text |
| IniFile.ClassifySection | IniFile.js:75-87 | a line that is no comment and no parameter but matches the section form is a section line |
| IniFile.TrimmedKeepsNoBracket | IniFile.js:66 | a captured section name holds no ']' and, when not empty, does not start with white space |
| IniFile.TrimSpacePrefix | IniFile.js:66-67 | white space followed by text that does not start with white space trims at its start to exactly that text |
| IniFile.TrimSpaceSuffix | IniFile.js:67 | text that does not end in white space followed by white space trims at its end to exactly that text |
| Question.HintSingleLine | Question.js:48 | the closing hint line holds no line break |
| Question.GetQuestionAnswerText | Question.js:42-49 | the text starts with the question and ends with the hint |
| Question.AnswerTextIsJoin | Question.js:43-48 | the text is the question, a blank line, "A. " to "D. " answers, a blank line and the hint, joined by newlines |
| Question.AnswerTextLines | Question.js:42-49 | when the question and answers are single lines, splitting the text at newlines gives back exactly those eight lines, so each answer is recoverable from its line |
| Question.FreshAnswerText | Question.js:16-37 | a freshly constructed question's text is the empty-question layout |
| Questions.Property | Questions.js:77 | reading a key of a section gives its value when present and undefined otherwise |
| Questions.ReadFrom | Questions.js:68-95 | a missing "Question<n>" section throws a TypeError (and only then); otherwise the record carries number num and the question total |
| Questions.EntriesText | Questions.js:77-78 | the section written for a complete question holds its id and its question text under "ID" and "Question" |
| Questions.EntriesAnswers | Questions.js:80-83 | the section written for a complete question holds its four answers under "AnswerA" to "AnswerD" |
| Questions.EntriesOffsets | Questions.js:85-92 | the section written for a complete question holds its eight answer offsets, as decimal text, under their keys |
| Questions.ReadBack | Questions.js:68-95 | reading back a section written from a complete question gives that question (decimal parseInt inverts printing) |
| Questions.FirstMissing | Questions.js:57-60 | the first question index whose section is missing: every earlier section exists |
| Questions.FindQuestion | Questions.js:100-108 | the first question among the first numQuestions whose id matches; no match throws a ReferenceError (the undeclared `num`), reading past the list throws a TypeError |
| Questions.Questions.constructor | Questions.js:16-24 | a new list holds no questions, count 0 and an empty ini object |
| Questions.Questions.ReadQuestion | Questions.js:68-95 | throws a TypeError exactly when section "Question<num>" is missing; otherwise the question is number num of numQuestions, its six texts are that section's properties and its eight offsets are those properties as `parseInt` reads them |
| Questions.Questions.LoadQuestions | Questions.js:55-60 | the list becomes the old list followed by questions 0 up to the first missing section, as read from the file; a missing section before the count ends the loop with a TypeError |
| Questions.LoadedAt | Questions.js:57-60 | entry j of the loaded questions is what reading question j returns |
| Questions.Questions.ReturnQuestion | Questions.js:100-108 | the search loop returns exactly FindQuestion's outcome |
| Traps.InsideThisTrap | Trap.js:32-35 | a point can be inside only when all four sides are numbers |
| Traps.InsideIsClosedRectangle | Trap.js:32-35 | with numeric sides, inside exactly when left <= x <= right and top <= y <= bottom, edges included |
| Traps.InvertedTrapIsEmpty | Trap.js:32-35 | a trap with left past right or top past bottom holds no point |
| Traps.NewTrapIsOnePoint | Trap.js:11-27 | the fresh trap covers only (0, 0) and uses no destination, overlay or sound |
| Traps.WideningKeepsPoints | Trap.js:32-35 | moving sides outward keeps every point that was inside |
| Questions.Loaded | Questions.js:57-60 | the first n questions read from the file, n of them |
| Questions.FirstMissingBeyond | Questions.js:57-59 | an index below the total whose section is present is not the first missing one, so the loop goes past it |
| Questions.FirstMissingIs | Questions.js:57-59 | the loop's stopping index, the total or the first absent section, is the first missing one |
| QuestionPosData.PositionListSpec | QuestionPosData.js:117-125 | after recording, each question character maps to its last position in the array, which holds that character; '0' and absent characters keep what the map held before |
| QuestionPosData.MapPosOf | QuestionPosData.js:179-182 | `(row << shift) + col` is NaN exactly when the column is, and the shifted row plus the column otherwise |
| QuestionPosData.QuestionPosData.constructor | QuestionPosData.js:22-47 | width, height and shift as given, no positions or images, and the built-in 8x8 map of questions 1, 2 and 3 |
| QuestionPosData.QuestionPosData.IsQuestionPosItem | QuestionPosData.js:99-102 | true unless the position holds '0', so positions outside the array count as questions |
| QuestionPosData.QuestionPosData.GetValue | QuestionPosData.js:107-111 | '0' outside [0, mapHeight << mapWidthShift); inside, the stored tile, or undefined past the array |
| QuestionPosData.QuestionPosData.ConvertPointToMapPos | QuestionPosData.js:131-134 | y * 2^mapWidthShift + x in the usual range |
| QuestionPosData.QuestionPosData.GetCanvasImage | QuestionPosData.js:264-270 | the image loaded under the key when there is one, otherwise null |
| QuestionPosData.QuestionPosData.SetupPositionList | QuestionPosData.js:117-125 | the position map becomes PositionList of the old map and the tiles; nothing else changes |
| QuestionPosData.QuestionPosData.GetQuestionItemTypeAt | QuestionPosData.js:143-194 | '?' on a tile that is not '0'; it throws exactly when the tile is '0', a question is active and looking it up throws, with that error; an empty tile with no active question ('0') gives '0'; otherwise one of '?', 'A'-'D', '0' |
| QuestionPosData.QuestionPosData.GetQuestionItemTypeAtSpecial | QuestionPosData.js:207-218 | a question mark on the active question's own tile becomes '0'; other question tiles stay '?'; empty tiles behave as GetQuestionItemTypeAt |
| QuestionPosData.QuestionPosData.ParseQuestionPosData | QuestionPosData.js:277-322 | mapWidth becomes the scan's width; a bad first width throws a ReferenceError and changes nothing else; otherwise it reports a mismatching line and a line count unequal to the wall map's, and unless the file had no lines it commits the tiles, the line count and log2 of the width and records the question positions |
| QuestionPosData.AnswerTile | QuestionPosData.js:179-182 | in range, `((pos >> shift) + y) << shift` plus `pos % w + x` is pos + y * w + x: the answer's tile is at its offset from the question mark |
| QuestionPosData.RowAndColumn | QuestionPosData.js:153-155 | with a power-of-two width, `pos >> shift` and `pos % w` are the question's row and column |
| QuestionPosData.AnswersRelativeToQuestion | QuestionPosData.js:143-194 | with the question's tile known and every answer passing the two range checks (column at most mapWidth, row at most mapHeight, with no lower bound on the column), an empty tile shows the first answer A-D whose offset from the question lands on it, and '0' when none does |
| QuestionPosData.OutsideAnswerHidesAll | QuestionPosData.js:169-177 | when any answer of the active question has its column greater than mapWidth or its row greater than mapHeight, every empty tile gives '0' |
| PropData.Max | PropData.js:180 | `Math.max` is at least both arguments and is one of them |
| PropData.HighImageNumIsMax | PropData.js:176-183 | the running maximum bounds the start and every tile's base-36 value and equals one of them |
| PropData.PropData.constructor | PropData.js:22-47 | width, height and shift as given, no images, numPropImgs 0 and the built-in 8x8 map of props 1, 2 and 3 |
| PropData.PropData.IsProp | PropData.js:100-103 | true unless the position holds '0', so positions outside the array count as props |
| PropData.PropData.GetValue | PropData.js:108-112 | '0' outside [0, mapHeight << mapWidthShift); inside, the stored tile, or undefined past the array |
| PropData.PropData.ConvertPointToMapPos | PropData.js:118-121 | y * 2^mapWidthShift + x in the usual range |
| PropData.PropData.GetCanvasImage | PropData.js:234-240 | the image loaded under the key when there is one, otherwise null |
| PropData.PropData.SetAllTimeHighImageNum | PropData.js:176-183 | numPropImgs becomes the largest of its old value and every tile's base-36 value; nothing else changes |
| PropData.PropData.ParsePropData | PropData.js:126-171 | mapWidth becomes the scan's width; a bad first width throws a ReferenceError and changes nothing else; otherwise it reports a mismatching line and a line count unequal to the wall map's, and unless the file had no lines it commits the tiles, the line count and log2 of the width and raises numPropImgs |
| PropData.DefaultHighImageNum | PropData.js:39-46 | the built-in map has 64 tiles whose highest prop number is 3 |
| QuestionPosData.AnswerFacts | QuestionPosData.js:154-182 | for an answer that passes both range checks, neither test returns '0' and its map position is the question's position plus y * mapWidth + x |
| QuestionPosData.ShiftedRow | QuestionPosData.js:179-182 | a row no more than mapHeight away from row 0, in either direction, shifts without wrapping: `row << mapWidthShift` is row * 2^mapWidthShift |
| PropData.DefaultDigit | PropData.js:39-46 | every tile of the built-in map is one of the digits '0' to '3' |
| MazeConfig.Lookup | MazeConfig.js:269 | `iniObj[section][key]` throws a TypeError exactly when the section is missing, and is a value only when the section holds the key |
| MazeConfig.GetValueCheckingRange | MazeConfig.js:267-280 | a missing section throws a TypeError; a missing key gives the default unreported; a value from the file outside [low, high] is reported and replaced by the default; any other value (NaN included) is handed back as read |
| MazeConfig.CheckedInRangeOrDefault | MazeConfig.js:267-280 | every value handed back is NaN, inside [low, high] or the default, and a reported one is the default |
| MazeConfig.InRangeValueKept | MazeConfig.js:267-280 | a value written as an in-range decimal number is handed back unchanged and unreported |
| MazeConfig.Side | MazeConfig.js:109-112 | `tile * TILE_SIZE + offset` is NaN exactly when either part is, and tile * 64 + offset otherwise |
| MazeConfig.TrapRecord | MazeConfig.js:88-127 | a missing "Trap<n>" section throws a TypeError, and only then; otherwise the trap uses its destination exactly when gotoDest is not -1, plays no sound, and uses an overlay exactly when the overlay name is non-empty |
| MazeConfig.GetTrap | MazeConfig.js:88-135 | `getTrap` always throws a TypeError: setting a property on the string `trap.overlayFile` under strict mode fails, and a missing section fails earlier |
| MazeConfig.SideTile | MazeConfig.js:109-112 | tile * 64 + offset with offset in [0, 63] lies in that tile |
| MazeConfig.SideFromChecked | MazeConfig.js:109-112 | under the parseInt reading of the range test, a side built from a checked tile and a checked offset is NaN or lies in an allowed tile |
| MazeConfig.TrapSidesInTiles | MazeConfig.js:95-112 | under the parseInt reading of the range test, each trap side lies in a tile allowed by the map size or in its default tile (15 or 16) |
| MazeConfig.EmptyTrapSection | MazeConfig.js:95-131 | an empty trap section on an 8x8 map spans 960..1024 on both axes, goes nowhere and has no overlay |
| MazeConfig.AngleUnits | MazeConfig.js:165 | a NaN angle converts to 0 maze units, a number as Trig.degreesToMazeAngleUnits converts it |
| MazeConfig.Colour | MazeConfig.js:228-240 | the missing-value sentinel -11 becomes the channel's default; any other value is stored as read |
| MazeConfig.ColourValues | MazeConfig.js:192-204 | the twelve colour and step values of a section |
| MazeConfig.ColourFields | MazeConfig.js:228-240 | the twelve colour and step fields of a destination |
| MazeConfig.GetDest | MazeConfig.js:140-259 | a missing "Dest<n>" section throws a TypeError, and only then; otherwise the destination uses a landscape exactly when it does not keep the existing one, reads its background from a file exactly when the file name is non-empty and from colours otherwise, and keeps the existing background only when reading colours |
| MazeConfig.DestAngle | MazeConfig.js:154-165 | a missing angle keeps the player's angle and stores 45 degrees (240 maze units); under the parseInt reading of the range test, every stored angle lies in [0, ANGLE360) |
| MazeConfig.DestPositionInTiles | MazeConfig.js:147-164 | under the parseInt reading of the range test, both destination coordinates are NaN or lie in a tile allowed by the map size or the default tile 10 |
| MazeConfig.DestColours | MazeConfig.js:190-241 | with no background file, a missing colour value takes its channel's default and marks the background as the existing one; a present value is stored as read; the existing background is used exactly when some value is missing |
| MazeConfig.DestBackgroundFile | MazeConfig.js:185-188 | with a background file the colours keep the destination defaults and the existing background is not used |
| MazeConfig.DestLandscape | MazeConfig.js:169-181 | a landscape is used exactly when its file name is non-empty; without one the offset and start angle stay 0 |
| MazeConfig.MazeConfig.constructor | MazeConfig.js:13-25 | the given map size, no traps, one destination expected, empty lists and an empty ini object |
| MazeConfig.MazeConfig.AdvanceToDest | MazeConfig.js:78-82 | destination n exactly when 0 <= n < numDests and the list holds it; otherwise nothing |
| MazeConfig.WithBackground | MazeConfig.js:185-241 | the background file is stored; it is used exactly when it is non-empty and RGB exactly when it is not; with RGB each colour field takes its value or its default, and the existing background is used exactly when a value is missing; with a file the colours stay at their defaults; every other field is kept |
| MazeConfig.CheckedSide | MazeConfig.js:109-112 | under the parseInt reading of the range test, a side built from a range-checked tile and a range-checked offset is NaN or lies in an allowed tile |
| Pixels.ClampByte | Background.js:168-170 | a Uint8ClampedArray stores NaN as 0, a value in [0, 255] as itself, below 0 as 0 and above 255 as 255 |
| Pixels.ByteAt | Landscape.js:88-91 | an element of the source buffer, or 0 (undefined stored) past its end |
| Pixels.ImageData.constructor | Background.js:17 | `createImageData(w, h)`: a fresh all-zero buffer of 4 * w * h bytes |
| Pixels.Store | Background.js:168 | a write inside the buffer changes exactly that byte; a write outside it changes nothing |
| Pixels.StorePixel | Background.js:168-171 | bytes i to i+3 take the four values, each only where it is an element; every other byte is kept |
| Pixels.PixelOffset | Background.js:167 | byte c of pixel (col, row) sits at (col + row * w) * 4 + c, and that offset gives back col, row and c |
| Background.StepChannel | Background.js:122-124 | one step of a colour channel: NaN stays NaN; otherwise the sum clamped to [0, 255], equal to the sum when it is in range |
| Background.NextRowColour | Background.js:118-139 | within a band, each row's colour is the previous row's stepped once by the band's step |
| Background.Background.constructor | Background.js:15-36 | a 320x200 buffer and the prototype's default sky and ground colours and steps, RGB and no file |
| Background.Background.SetPixel | Background.js:165-172 | the pixel's four bytes get r, g, b clamped and alpha 255; all others are kept |
| Background.Background.CreateGradientBackground | Background.js:109-141 | every byte of the buffer becomes the gradient's: rows above 100 the stepped sky colour, the rest the stepped ground colour, all with alpha 255 |
| Background.Background.CopyBackgroundTo | Background.js:148-159 | the destination's first 320 * 200 pixels become the background's, later bytes stay, and the background is unchanged |
| Background.Background.SetBackgroundFromDest | Background.js:41-76 | every file and colour field is copied from the destination, and the gradient is rebuilt exactly when it asks for RGB |
| Background.Background.CopyFields | Background.js:51-68 | the file flags and twelve colour fields become the destination's |
| Background.GradientFullAlpha | Background.js:171 | every gradient pixel has alpha 255 |
| Background.GradientRowUniform | Background.js:118-135 | all pixels of a gradient row have the same colour |
| Background.GradientStartColours | Background.js:112-129 | row 0 shows the sky start colour and row 100 the ground start colour, stored clamped |
| Background.GradientNextRow | Background.js:118-139 | each later row of a band is the previous row's byte plus the step, clamped to [0, 255] |
| Overlay.Composite | Overlay.js:70-83 | the composite keeps the destination's length |
| Overlay.CompositePixel | Overlay.js:75-79 | a destination byte takes the overlay's byte when the overlay pixel's alpha is non-zero, and stays otherwise |
| Overlay.CompositeIdempotent | Overlay.js:70-83 | compositing the same overlay twice is compositing it once |
| Overlay.Overlay.constructor | Overlay.js:12-18 | a fully transparent 320x200 buffer, no overlay file |
| Overlay.Overlay.SetOverlayFromTrap | Overlay.js:25-40 | nothing changes unless the trap uses an overlay; then the overlay file and flag are the trap's |
| Overlay.Overlay.SetPixel | Overlay.js:89-96 | the pixel's four bytes get r, g, b, a as given; all others are kept |
| Overlay.Overlay.CopyOverlayTo | Overlay.js:70-83 | the destination becomes the alpha-gated composite of the overlay over it; the overlay is unchanged |
| Landscape.Put | Landscape.js:87-92 | one guarded pixel copy keeps the buffer's length |
| Landscape.CopyRow | Landscape.js:84-93 | copying one image row keeps the buffer's length |
| Landscape.CopyRows | Landscape.js:83-94 | copying the image rows keeps the buffer's length |
| Landscape.LastRow | Landscape.js:83-94 | the last image row before r that writes destination pixel p, which it does when 0 <= p - 320 * row < w |
| Landscape.QuarterOf | Landscape.js:85-86 | bytes 4i to 4i+3 are exactly those of pixel i |
| Landscape.CopyRowAt | Landscape.js:84-93 | after copying columns before n of a row, byte k holds the image byte that row maps to it, if the guard lets the write through, and the old byte otherwise |
| Landscape.CopyRowsHit | Landscape.js:83-94 | after the whole copy, a byte of a pixel some image row writes holds the image byte from the last such row, unless it is the destination's last pixel |
| Landscape.CopyRowsMiss | Landscape.js:83-94 | after the whole copy, a byte of a pixel no image row writes, or of the destination's last pixel, keeps its old value |
| Landscape.LastRowClosedForm | Landscape.js:83-94 | the last row writing pixel p is min(r - 1, p / 320), when that row is wide enough to reach it |
| Landscape.LandscapePixelLands | Landscape.js:83-94 | for an image at most 320 wide, image pixel (col, row) lands at destination pixel col + row * 320, except at or past the destination's last pixel |
| Landscape.LandscapeLeavesOthers | Landscape.js:87 | pixels no image row reaches, and the destination's last pixel, are left as they were |
| Landscape.Landscape.constructor | Landscape.js:12-23 | no image loaded: an empty buffer, size 0, no landscape file, and the offset from the top and the start angle undefined |
| Landscape.Landscape.SetLandscapeFromDest | Landscape.js:28-44 | nothing changes unless the destination uses a landscape; then the file, offset and start angle are the destination's while the buffer and size are kept until the image loads |
| Landscape.Landscape.SetPixel | Landscape.js:101-108 | the pixel's four bytes get r, g, b, a; all others are kept |
| Landscape.Landscape.CopyLandscapeTo | Landscape.js:81-95 | the destination becomes CopyRows of itself and the image |
| Landscape.CopyRowTo | Landscape.js:84-93 | the inner loop leaves the destination as CopyRow of it for that image row |
| Landscape.CopyPixel | Landscape.js:87-92 | the four guarded byte writes leave the destination as Put of it |
| Landscape.PutAt | Landscape.js:87-92 | after one guarded pixel copy, byte k is the image byte at the same place in the pixel when k is one of the four written bytes and the guard holds, and the old byte otherwise |
| Background.Background.FillRow | Background.js:119-121 | the inner loop paints one whole row with the row's colour, so every byte up to the end of that row is the gradient's |
| Background.Background.CopyColours | Background.js:55-68 | the six start colours and six steps become the destination's; the file flags are kept |
| Background.Background.CopyStartColours | Background.js:55-60 | the sky and ground start colours become the destination's; the steps and file flags are kept |
| Background.Background.CopySteps | Background.js:62-68 | the sky and ground steps become the destination's; the start colours and file flags are kept |
| OpeningCredits.TimeRemaining | OpeningCredits.js:88-94 | 4500 before the stop watch starts; 0 once more than 4500 ms have run; otherwise 4500 less the running time, which lies in [0, 4500] when the clock has not gone back |
| OpeningCredits.RemainingNonIncreasing | OpeningCredits.js:88-94 | for a fixed start, the time left never goes up as the clock runs |
| OpeningCredits.NotStartedFullDuration | OpeningCredits.js:20-22 | before the stop watch starts the full 4500 ms remain |
| OpeningCredits.OpeningCredits.constructor | OpeningCredits.js:18-23 | the stop watch starts out not started (-1) |
| OpeningCredits.OpeningCredits.StartTheStopWatch | OpeningCredits.js:81-83 | the start time becomes the clock reading |
| OpeningCredits.OpeningCredits.GetStopWatchTimeRemaining | OpeningCredits.js:88-94 | the time left is TimeRemaining of the start time and the clock reading |
| JsAddOns.PresentBelow | JSAddOns.js:17-19 | the present indices below n, each listed once, in increasing order |
| JsAddOns.PresentBelowComplete | JSAddOns.js:17-19 | every present index below n is listed |
| JsAddOns.Visits | JSAddOns.js:17-20 | the (element, index) pairs `forEach` passes to the callback, one per present index, in order |
| JsAddOns.VisitsExactlyPresent | JSAddOns.js:12-20 | `forEach` calls the callback with (x, i) exactly when index i is present and holds x |
| JsAddOns.ForEach | JSAddOns.js:11-21 | a non-function callback throws a TypeError; otherwise the calls made are Visits of the array |
| JsAddOns.FirstMatch | JSAddOns.js:34-36 | the first present index from i on whose element satisfies the predicate, none before it, or nothing when no index does |
| JsAddOns.FindFirst | JSAddOns.js:30-38 | returns the element FindFirstSpec gives: undefined for a non-function, else the first matching element or undefined; the predicate is applied to the present indices up to the match and no later one |
| JsAddOns.FindFirstIsFirst | JSAddOns.js:34-37 | the element returned satisfies the predicate and no earlier present element does; undefined means no present element does |
| TextAreaBox.Step | TextAreaBox.js:122-133 | a word joins the gathered words exactly when the joined text measures below the threshold; otherwise the gathered words are emitted as a line and the word starts the next |
| TextAreaBox.WrapLine | TextAreaBox.js:119-135 | every input line wraps into at least one line |
| TextAreaBox.WrapAll | TextAreaBox.js:117-136 | the input lines wrap into at least as many lines |
| TextAreaBox.Flatten | TextAreaBox.js:130-135 | a non-empty list of lines flattens to text ending in "\n" |
| TextAreaBox.FlattenAppend | TextAreaBox.js:130-135 | flattening distributes over concatenation of line lists |
| TextAreaBox.RemoveReturns | TextAreaBox.js:62 | `replace(/(\r)/gm, "")` leaves no '\r', keeps every other character and never lengthens the text |
| TextAreaBox.RemoveReturnsIdentity | TextAreaBox.js:62 | text with no '\r' is left as it is, so repeating the removal changes nothing |
| TextAreaBox.WrapEndsWithNewline | TextAreaBox.js:117-137 | the wrapped text ends with "\n" and every input line gives at least one output line |
| TextAreaBox.FillFits | TextAreaBox.js:122-133 | every line gathered from space-free words is a single word or measured below the threshold |
| TextAreaBox.EmittedLinesFit | TextAreaBox.js:126-131 | every wrapped line holding a joining space measured below the threshold |
| TextAreaBox.FirstWordTooWide | TextAreaBox.js:129-131 | when a line's first word does not fit, an empty line is emitted before it |
| TextAreaBox.FillPrefix | TextAreaBox.js:122-134 | wrapping more words only adds lines after the ones already emitted |
| TextAreaBox.FillJoin | TextAreaBox.js:122-134 | joining the wrapped lines of a non-empty word list with spaces gives those words joined with spaces, after one space when the first word did not fit |
| TextAreaBox.WrapLineKeepsText | TextAreaBox.js:119-135 | wrapping drops no text: the wrapped lines joined by spaces are the line itself, after one space when its first word did not fit |
| TextAreaBox.TextAreaBox.constructor | TextAreaBox.js:15-26 | the geometry and text colour given, and no display text |
| TextAreaBox.TextAreaBox.WrapLines | TextAreaBox.js:113-138 | the output is every input line's wrapped lines, each followed by "\n", with threshold width - 2 * MARGIN; maxDisplayWidth is ignored |
| TextAreaBox.TextAreaBox.WrapOneLine | TextAreaBox.js:118-136 | appending one input line's wrapped lines, each followed by "\n" |
| TextAreaBox.TextAreaBox.SetDisplayText | TextAreaBox.js:60-66 | the display text becomes the wrapped text with every '\r' removed first; the text colour is kept |
| WallHits.IntersectionIndexRange | WallHitItem.js:90 | `~~(v / 64)` is tile 0 for any v within one tile of the origin on either side, and for a non-negative v in range names the tile v lies in |
| WallHits.GridLineIndex | WallHitItem.js:91 | `g >> 6` is the tile whose 64 units hold the grid line (rounding toward minus infinity) |
| WallHits.LineIndexInRange | WallHitItem.js:91-93 | a grid line whose tile index is in [0, b) lies in [0, 64 * b) |
| WallHits.PassableLineInRange | Maze.js:282-301 | a crossing the walk passes has its grid line on the map |
| WallHits.StepMovesOneTile | Maze.js:299-300 | one step of a walk moves the grid line's tile index by exactly one tile |
| WallHits.CrossingLine | Maze.js:299-300 | after j steps of one tile the grid line has moved by 64 * j |
| WallHits.PassFnWithin | Maze.js:282-301 | on a bounded grid, every passable grid line lies within the grid |
| WallHits.Steps | Maze.js:278-302 | the number of passable crossings before the walk stops; each lies on the map, so there are at most as many as the grid has tiles across the grid lines |
| WallHits.StepsCrossings | Maze.js:278-302 | every crossing before the last is passable, and the last one is not |
| WallHits.WalkCrossings | Maze.js:278-302 | the crossings of a walk over the grid before its last are passable, and the last is not |
| WallHits.WalkOutcome | Maze.js:278-302 | a walk stops off the map with distance MAX_VALUE, or on a wall tile with distance (intersection - origin) * inverse; its tile and position follow calcAndSetMapPos |
| WallHits.WalkLength | Maze.js:278-302 | a walk's final grid line is its start moved one tile per passable crossing, and there are at most as many crossings as tiles across |
| WallHits.DetermineClosestHit | WallHitItem.js:73-80 | one of the two hits; off the map only when both are, the horizontal hit when both are; otherwise the nearer, the vertical one on a tie |
| WallHits.WallHitItem.constructor | WallHitItem.js:31-56 | the four given fields, and the prototype's top side, on-map, zero distance and tile 0 for the rest |
| WallHits.WallHitItem.IsHorizHit | WallHitItem.js:60-63 | false for an undefined hit type; for the two defined kinds, true exactly when the hit is not vertical |
| WallHits.WallHitItem.IsVertHit | WallHitItem.js:65-68 | false for an undefined hit type and never together with a horizontal hit |
| WallHits.WallHitItem.CalcAndSetMapPos | WallHitItem.js:87-98 | a horizontal hit takes x from `~~(intersection / 64)` and y from `gridLine >> 6`, any other hit type the other way round; mapPos is their map position and is returned; no other field changes |
| WallHits.WallHitItem.CalcAndSetOffTheMap | WallHitItem.js:105-114 | an index outside the map makes the hit off-map at distance MAX_VALUE; otherwise nothing changes, so an off-map hit is never reset; returns offTheMap |
| WallHits.HitKinds | WallHitItem.js:60-68 | the two tests are complementary for the defined hit types, and both fail on an undefined one |
| WallHits.TruncationAtTheEdge | WallHitItem.js:90-91 | truncation puts an intersection in (-64, 0) on tile 0 while grid line -1 is on tile -1 |
| WallHits.StepsGoOn | Maze.js:278-302 | at a passable crossing the walk has one passable crossing more than from the next line, and its last crossing is the same as from there |
| WallHits.CrossingNext | Maze.js:299-300 | crossing j + 1 from a line is crossing j from the next line |
| Maze.TurnLeft | Maze.js:505-509 | the heading less ANGLE10, wrapped: for a heading inside one turn the result is inside one turn and equals (arc - ANGLE10) mod ANGLE360 |
| Maze.TurnRight | Maze.js:514-518 | the heading plus ANGLE10, wrapped: for a heading inside one turn the result is inside one turn and equals (arc + ANGLE10) mod ANGLE360 |
| Maze.TurnsUndoEachOther | Maze.js:505-518 | a right turn undoes a left turn and a left turn undoes a right turn |
| Maze.ColumnArc | Maze.js:373-394 | the arc column c is cast at lies in [0, ANGLE360) and is congruent to heading - ANGLE30 + c; column ANGLE30 looks along the heading |
| Maze.FirstColumnArc | Maze.js:373-375 | the first cast arc, heading - ANGLE30 wrapped once, is column 0's arc and lies inside one turn |
| Maze.NextColumnArc | Maze.js:392-394 | adding SLICE_WIDTH to a column's arc and wrapping at ANGLE360 gives the next column's arc |
| Maze.GridBase | Maze.js:234 | `(p >> 6) << 6` is a multiple of 64 within 32-bit range, and for a point in [0, 2^31) it is the first line of the tile holding p |
| Maze.StartLine | Maze.js:230-261 | going forward the first grid line is a multiple of 64 strictly past the player and at most a tile away; going back it is one below the player's own tile's first line |
| Maze.HorizStart | Maze.js:229-261 | the start of a horizontal cast lies in 32-bit range and steps by +64 or -64 |
| Maze.VertStart | Maze.js:322-332 | the start of a vertical cast lies in 32-bit range and steps by +64 or -64 |
| Maze.StartsOnTheFirstLine | Maze.js:229-332 | both casts start on StartLine in the ray's direction (down for arcs in (ANGLE0, ANGLE180), right for arcs below ANGLE90 or above ANGLE270) and step 64 that way |
| Maze.CastOutcome | Maze.js:262-304 | a cast along an axis stays on the map at its start with distance MAX_VALUE; any other cast ends off the map with MAX_VALUE, or on the map at a wall tile with distance (intersection - origin) * inverse |
| Maze.CastLength | Maze.js:278-302 | a cast off the axes ends a whole number k of tiles from its start line, k at most mapWidth |
| Maze.CastPassesOpenTiles | Maze.js:278-302 | each crossing before the one a cast stops at lies j tiles from the start and is on the map and not a wall |
| Maze.UndefinedHitTypeIsVertical | Maze.js:262 | a hit built with an undefined hit type takes its tile by the vertical rule: column from the grid line, row from the intersection |
| Maze.VertLinePixel | Maze.js:439-456 | after `drawVertLine`, a pixel of the line's column in a drawn row (on the plane, texel inside the square texture and not transparent) has the texel's colour and alpha 0xff; every other byte keeps its value |
| Maze.RowDrawnTest | Maze.js:443-453 | a row of the line is drawn exactly when the pixel is on the 320 x 200 plane, the texel index is inside the texture and the texel's alpha byte is not 0 |
| Maze.VertLineLocal | Maze.js:439-456 | the line's result at a byte depends on no other byte of the buffer |
| Maze.CorrectedDistance | Maze.js:386-387 | the chosen hit's distance becomes positive: a distance at or below zero becomes 1.0, a positive one is kept, and nothing else of the hit changes |
| Maze.LeftMostOfSlice | Maze.js:424-432 | the texture column of a slice is in [0, 64) for an offset in [0, 64); unflipped it is one left of the offset but not below 0 |
| Maze.WallSlice | Maze.js:408-437 | `drawWallSlice` leaves the buffer alone for a hit off the map and never changes its length |
| Maze.SliceColumn | Maze.js:415-427 | the slice's offset `~~intersection % 64` lies in (-64, 64) and the unflipped texture column in [0, 63), one left of a non-negative offset |
| Maze.WallSliceLocal | Maze.js:408-437 | a wall slice changes only its own column, and its change to a byte depends on nothing else in the buffer |
| Maze.ColumnImageLocal | Maze.js:378-399 | one pass of the column loop changes only its own column, and the change to a byte depends on nothing else in the buffer |
| Maze.FrameColumns | Maze.js:368-399 | after n columns, each byte of a drawn column x is what column x's own slice draws over the background, and columns not yet drawn show the background |
| Maze.ThirdAttemptNeverMoves | Maze.js:570-577 | the third test of `attemptMove`, bounded by the shifted undefined `getMapHeight`, never passes |
| Maze.AttemptedMove | Maze.js:550-578 | the player moves to the new point if its tile can be entered, else to the new x with the old y if that can, else stays; it only ever ends where it was or on a tile that passes the test |
| Maze.MovesStayOnOpenTiles | Maze.js:550-578 | a player standing on a tile that passes the test is on such a tile after any attempted move |
| Maze.Maze.constructor | Maze.js:17-34 | the grid and texture given, valid tables, a fresh background, an all-zero 320 x 200 buffer, the player at (80, 224) with heading 0 and the direction from the tables' entry 0 |
| Maze.Maze.SetPixel | Maze.js:161-168 | the four bytes at (x + y * 320) * 4 get r, g, b clamped to bytes and alpha 0xff; every other byte keeps its value |
| Maze.Maze.SetPlayerPos | Maze.js:523-526 | the direction becomes the cosine and sine table entries of the heading; position and heading unchanged |
| Maze.Maze.RotateLeft | Maze.js:505-509 | the heading becomes TurnLeft of the old one and the direction follows it; the position is unchanged |
| Maze.Maze.RotateRight | Maze.js:514-518 | the heading becomes TurnRight of the old one and the direction follows it; the position is unchanged |
| Maze.Maze.AttemptMove | Maze.js:550-578 | the position becomes AttemptedMove of the old position and the new point; heading and direction unchanged |
| Maze.Maze.MoveForward | Maze.js:531-535 | the position becomes AttemptedMove towards the old position plus 16 times the direction |
| Maze.Maze.MoveBackward | Maze.js:540-544 | the position becomes AttemptedMove towards the old position minus 16 times the direction |
| Maze.Maze.WalkToWall | Maze.js:278-302 | the `while (true)` loop leaves the hit in the state Walk describes for its starting line and intersection, with its type and arc unchanged |
| Maze.Maze.ProbeCrossing | Maze.js:280-301 | a pass stops exactly when the crossing is not passable, leaving the stopped state (off the map with MAX_VALUE, or at the wall with the distance); otherwise it advances the line by the grid step and the intersection by the table step |
| Maze.Maze.FirstHorizIntersection | Maze.js:229-261 | the first horizontal line, its intersection and the step are HorizStart's |
| Maze.Maze.FirstVertIntersection | Maze.js:322-332 | the first vertical line, its intersection and the step are VertStart's |
| Maze.Maze.CastFromStart | Maze.js:262-304 | a fresh hit of undefined type and the given arc, in the state CastFrom describes |
| Maze.Maze.CastRayForHorizHit | Maze.js:220-305 | `castRayForHorizHit` returns a fresh hit of undefined type whose state is HorizCast of the scene for that arc |
| Maze.Maze.CastRayForVertHit | Maze.js:315-361 | `castRayForVertHit` returns a fresh hit of undefined type whose state is VertCast of the scene for that arc |
| Maze.Maze.DrawVertLine | Maze.js:439-456 | the buffer becomes VertLine of its old contents, so each pixel is as VertLinePixel states |
| Maze.Maze.DrawLineRow | Maze.js:444-454 | one pass of the row loop writes the texel's colour with alpha 0xff to pixel (col, y) when the row is drawn and leaves every other byte alone |
| Maze.Maze.RowTests | Maze.js:445-450 | the row is drawn exactly when RowDrawn holds, and srcIndex is four times the row's source pixel |
| Maze.Maze.CopyTexel | Maze.js:451 | the pixel (col, y) gets the three colour bytes from srcIndex and alpha 0xff; every other byte keeps its value |
| Maze.Maze.DrawWallSlice | Maze.js:408-437 | the buffer becomes WallSlice of its old contents for the column's fish-eye entry |
| Maze.Maze.DrawColumn | Maze.js:380-389 | the buffer becomes ColumnImage of its old contents: unchanged when both hits are off the map, else the nearer hit's corrected slice drawn over it |
| Maze.Maze.RenderOneFrame | Maze.js:368-402 | the buffer becomes FrameImage of the background for all 320 columns, so by FrameColumns each column shows its own slice over the background |
| Maze.RoundDownToTile | Maze.js:234 | for a 32-bit value t, `(t >> 6) << 6` is t rounded down to a multiple of 64, no more than 64 below t and inside 32-bit range |
| Maze.WalkGoesOn | Maze.js:278-302 | at a passable crossing the loop moves to the next line and intersection, which still lie in range, and the final state is the same from either |
| Maze.WalkStops | Maze.js:280-301 | at a crossing that is not passable the loop stops there, in the stopped state of that crossing |
| Maze.WalkMoves | Maze.js:278-302 | one pass of the loop either stops in the final state of the walk or leaves a line and intersection from which the walk ends in the same state |
| Maze.CrossingFacts | Maze.js:280-300 | a crossing is passable exactly when its tile is on the map and not a wall; stopped off the map the distance is MAX_VALUE, on the map it is the scaled distance to the intersection |
| Maze.Maze.WalkStep | Maze.js:278-302 | one pass of the `while (true)` loop: when it breaks, the hit is in the walk's final state; otherwise the hit is one line further on and the walk from there ends in the same state |
| Maze.NextFrame | Maze.js:378-399 | drawing one more column (moving castColumn by SLICE_WIDTH) takes the frame after c columns to the frame after c + 1 |
| Maze.LineByteOwnColumn | Maze.js:444-454 | after the row loop has reached row `rows`, a byte of the line's column in a drawn earlier row holds the texel's colour with alpha 0xff, and any other byte of that column is unchanged |
| Maze.LineByteOtherColumn | Maze.js:444-454 | the row loop never changes a byte outside the line's own column |
| Maze.LineByteNextRow | Maze.js:444-454 | one more pass of the row loop changes only the pixel (col, y), and only when that row is drawn |
| Maze.LineByteAllRows | Maze.js:443-455 | once the row loop has passed the bottom of the line, the buffer is VertLine of the old buffer |
| Maze.SourcePixelOfRow | Maze.js:440-447 | the source pixel of row y is `~~(ratio * yImage) * srcSize + srcCol` with ratio = srcSize / lineHeight and yImage = y - top + 1 |
| Maze.Maze.ValidSceneIsDrawable | Maze.js:368-402 | a valid maze gives a scene the frame can be drawn from |
| PropHitItem.PropColumn | PropHitItem.js:39 | the prop's column is NaN exactly when the map is zero wide, and otherwise mapPos mod mapWidth for a position in range |
| PropHitItem.CentreOfTile | PropHitItem.js:37-41 | on an ordinary map the prop's centre is its column times 64 plus 32 across and its row (mapPos shifted by mapWidthShift) times 64 plus 32 down |
| PropHitItem.DistanceIsEuclidean | PropHitItem.js:44-48 | with a correct square root the distance is the truncated Euclidean distance, lying within one unit below it, and exactly |xRel| when the prop is on the player's row |
| PropHitItem.DistanceOnRow | PropHitItem.js:45-47 | on the player's row the distance is |xRel|: never negative, its square is exactly xRel^2 + yRel^2, and that is below (d + 1)^2 |
| PropHitItem.DistanceOffRow | PropHitItem.js:45-48 | off the row, with an exact host square root below 2^31, the distance is a non-negative whole number d with d^2 <= xRel^2 + yRel^2 < (d + 1)^2 |
| PropHitItem.Supplement | PropHitItem.js:57-62 | the quadrant angle is 0 below-right, 180 to the left and 360 above-right, and is missing exactly when the player shares a row or column with the prop |
| PropHitItem.Bearing | PropHitItem.js:51-68 | the early return happens exactly when the player is on the prop's centre; the four axis directions give 0, 90, 180 and 270; the call throws a TypeError exactly when the prop is off both axes and radToDegrees is missing |
| PropHitItem.BearingInQuadrant | PropHitItem.js:51-68 | with an atan in (-90, 90) degrees of its argument's sign, an off-axis bearing falls in (0, 90) below-right, (90, 270) to the left and (270, 360) above-right |
| PropHitItem.AxisBearingsInMazeUnits | PropHitItem.js:69 | the bearings 0, 90, 180 and 270 degrees convert to ANGLE0, ANGLE90, ANGLE180 and ANGLE270 |
| PropHitItem.UnwrapKeepsDirection | PropHitItem.js:72-76 | the seam adjustment changes the arc and the bearing by whole turns only, and brings an arc and a bearing in opposite end quadrants within half a turn of each other |
| PropHitItem.MidColumnOffset | PropHitItem.js:77 | the mid-point column is 160 plus the bearing's lead over the arc, and a prop dead ahead lands on the centre column |
| PropHitItem.FisheyeDivisorIsSecant | PropHitItem.js:80-83 | with the fish table createTables builds, the divisor is 1 / cos of the column's angle from the view's centre on screen, and 1 / cos(arcToRad(ang)) off screen |
| PropHitItem.PlacementOutcomes | PropHitItem.js:32-87 | `setPropHitItemData` stores nothing exactly when the player is on the prop's centre, throws exactly when the prop is off both axes and radToDegrees is missing, and otherwise stores the column of the unwrapped bearing and the distance divided by that column's fish-eye divisor |
| PropHitItem.DueEastAhead | PropHitItem.js:32-87 | a prop due east of a player facing ANGLE0 is stored at column 160 with its distance the difference of the x coordinates |
| PropHitItem.PlacementFromBearing | PropHitItem.js:51-87 | the placement follows the bearing's outcome: its exception, its early return, or the corrected distance and column of its angle |
| PropHitItem.PropHitItem.constructor | PropHitItem.js:15-21 | the tile position and trig tables given, distance -1 and column -1 |
| PropHitItem.PropHitItem.SetPropHitItemData | PropHitItem.js:32-87 | the stored distance and column become Placement's when it returns a placement, and stay as they were on the early return or the exception, which is reported |
| PropHitItem.PropHitItem.FisheyeCorrected | PropHitItem.js:80-83 | the distance divided by FisheyeDivisor for the column |
| PropHitItem.PropHitItem.MidPointOf | PropHitItem.js:37-41 | the point computed is PropCentre of the position |
| PropHitItem.PropHitItem.DistanceBetween | PropHitItem.js:44-48 | the distance computed is PropDistance, so DistanceIsEuclidean applies to it |
| PropHitItem.PropHitItem.BearingOf | PropHitItem.js:51-68 | the outcome computed is Bearing's, so the axis, early-return and exception cases above apply |
| PropHitItem.PropHitItem.ColumnOf | PropHitItem.js:69-77 | the column computed is MidColumn of the unwrapped arc and bearing in maze units |

## Left out

- **Floating point:**
  - JavaScript numbers are modelled as exact reals and integers, with no rounding of doubles.
  - `Math.sin`, `Math.cos`, `Math.tan`, `Math.atan`, `Math.sqrt`, `Math.PI` and `Trig.radToDegrees` are function parameters (`Trig.MathHost`, `PropHitItem.PropMath`). The facts proved hold for any such functions; identities of trigonometry are not modelled.
- **Division:** `Js.Div` gives 0 when the divisor is 0, where JavaScript gives an infinity or NaN. The model has no infinities.
- **Resource loading:** files, images and the callback chains that load them are not modelled. This covers:
  - `loadDataFile`, `loadFile`, `loadConfigFile`, `loadQuestionsFile` beyond its question loop, `loadAssociatedImages`, `createXMLHttpRequest`;
  - `createBackgroundFromFile`, `createOverlayFromFile`, `createLandscapeFromFile`;
  - all of ImageCanvas.js.

  The pure parsers these call are modelled. The loop of `loadConfigFile` that pushes every trap and destination is not; `MazeConfig.GetTrap` and `MazeConfig.GetDest` model one record each.
- **Host plumbing:** these are canvas, DOM and timer glue, and are not modelled:
  - `paint`, the canvas context and `console.log` output;
  - `TextAreaBox` `clear`, `render`, `dumpText`, `dumpError` and `setTextClr`;
  - `OpeningCredits.drawOpeningCredits`;
  - MazeLoader.js (DOM set-up, key listeners, the animation interval) and GeneralConfig.js.

  The clock is a parameter of the stop watch. `measureText(s).width` is a parameter of the word wrap.
- **Records only:** QuestionHitItem.js only declares a record that no modelled code reads, so it is not modelled.
- **Dead code:** `drawVertLineOLD` and the commented-out `drawBackground` in Maze.js are not modelled.
- **The `tmpImageData == null` guard of `setPixel`:** it never fires once the constructor has run, so `Maze.Maze.SetPixel` requires a valid maze instead.
- **The polyfills:** each is installed only when the native method is absent. The native `forEach` and `findFirst` are not modelled.
- **Strings:** `toLowerCase` is modelled for ASCII letters only (`JsText.Lower`). Strings are sequences of characters, with no UTF-16 surrogate pairs.
- MazeConfig.GetValueCheckingRange: compares the value as `parseInt(s, 10)` reads it, where JavaScript's `<` and `>` convert the string with `Number()`. The two differ on text such as "12abc" or "0x1f", which `Number()` reads as NaN or as hexadecimal. The bounds that MazeConfig.SideFromChecked, MazeConfig.TrapSidesInTiles, MazeConfig.DestAngle, MazeConfig.DestPositionInTiles and MazeConfig.CheckedSide prove hold only under this reading: in the program `Angle=400abc` compares as NaN, passes the test, and parseInt then gives 400, so 2133 maze units (at least ANGLE360) are stored; `XTile=99abc` on an 8-wide map likewise stores 99 * 64.
- PropHitItem.DistanceIsEuclidean: holds only for a host square root that is exact on the given argument, because `Math.sqrt` is a parameter.
- TextAreaBox.TextAreaBox.WrapLines: relates the output to `measure`, the text width the canvas reports, and says nothing about pixels drawn.
- Maze.Maze.RenderOneFrame: ends with the frame in the drawing buffer. The `paint` that shows the buffer on the canvas is not modelled.
- MazeConfig.GetDest and MazeConfig.TrapRecord: each range-checked value comes with a flag saying whether it was reported, and these two drop it. The report goes only to `dumpError`, which is not modelled.
- Question.Fresh: stores the constructor's total "0" as the number 0 and its eight "" offsets as NaN, because the record holds numbers there. `readQuestion` overwrites all nine before anything reads them.
- Dests.NewDest: stores landscapeFile as the empty string where Dest.js:44 sets `false`, because the record holds a string there. `getDest` overwrites the field before anything reads it.
