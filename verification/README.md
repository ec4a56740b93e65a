# A model of the tunnel client, and proofs about it

The client carries a VPN through the TURN relays of a calling service. This
project models the parts of it whose correctness is decided by its own code, in
Dafny 4.11, and proves what they are for. `dafny verify dfyconfig.toml` checks all
of it.

- **Finding the proof-of-work seed.** `JsLexer` is the byte lexer, `JsSpans` says
  that its tokens tile the source, `CallWalk` and `CallJoin` are the two bracket
  walks and how they fit, `PowSeed`, `PowExtract` and `PowMeaning` the recogniser,
  `PowAccepted` and `PowFound` which calls it recognises, `PowOrder` what the order of
  a call's arguments does. `JsSpelling` and `JsRoundTrip` print words with any quotes,
  escapes, number bases, whitespace and comments and read them back, `JsOperators`
  does so for operators, division signs and regular expressions, `JsDigits` for numbers
  from their digits, `JsLiterals` for fractions, exponents and substitutions, and
  `JsCharacters` for code points. `JsTail` says that what is read from some place on
  depends on the text behind it alone; `JsWriting` concludes that the writing does not
  matter, only the structure. `PowBody` and `PowDivision` follow whole script bodies
  from end to end.
- **RTP-shaped packets.** `NonceCounter` is the 48-bit counter, `ObfsPacket` the
  wire format in both directions over an ideal cipher, `ObfsState` the state with
  its drawn-ahead randomness.
- **The dispatcher.** `ChunkScheduler` is the choice of a worker, `ChunkRuns` what it
  comes to over runs of any sizes and times, `Dispatcher` the class that makes it in
  place, `DispatcherRuns` whole runs with workers coming and going, `BufferOwnership`
  the interleaved goroutines and the buffers they pass.
- **The slider puzzle.** `SliderTiles` and `SliderSeams` are swaps, tiles and the seam
  score, `SliderPicture` says what that score means in the rearranged picture;
  `SliderRanking` and `SliderGuesses` rank the candidates, and `SliderStanding` says by
  the raw scores where each stands.
- **Starting up.** `ConfigClaim` is the claim on the configuration request,
  `GroupChain` the hand-over between worker groups.
- **The tunnel watch.** `TrafficWatch` decides when a tunnel is given up.
- **The internet checksum.** `Checksum`.

How it is modelled:

- A byte string is a Dafny `string` with one character per byte in the lexer, and a
  sequence of integers below 256 in the packet code. Machine widths are explicit
  wherever the code can reach them: 16-, 32- and 64-bit counters and sums, 63-bit
  numbers. `int` is taken to have 64 bits.
- Loops and objects that change step by step are methods and classes, each proved
  against a function of its inputs or its old state; what the code is for is proved
  about that function.
- Goroutines are state machines. One action is one atomic step of one goroutine, an
  action that is not enabled changes nothing, and a run is any sequence of actions,
  so a statement about every run is one about every interleaving.
- Time is an integer that comes with each event. Randomness is one stream of bytes
  that everybody reads from. Reading a decimal float, the cipher, and the colour and
  text scores of a puzzle are parameters.

Where the code does something else than its comments or its users might expect:

- Padding: the count byte holds 1 to 256 in eight bits, so a draw of 255 makes a
  packet that cannot be unwrapped. `ObfsPacket.RoundTrip` has the exact condition;
  neither of the two modes can draw that much (`ObfsPacket.ModesRoundTrip`).
- Checksum: the comment names RFC 1071. The 32-bit accumulator agrees with it up to
  131074 bytes, and `Checksum.AgreesWithStandard` says exactly when beyond that. A
  stored checksum still verifies at every length.
- The difficulty of a seed call with several different numbers from 1 to 16 is the
  first of them, and its marker the first of several hinted strings. So, exactly when
  they differ, both depend on the order of the arguments
  (`PowExtract.DifficultyFixedIff`, `PowExtract.MarkerFixedIff`); script bodies for
  which they do are in `PowOrder.TwoDifficulties` and `PowOrder.TwoMarkers`.
- A braced escape is summed up modulo 2^64, so a number far past the last code point
  can be taken for a character. `JsSpelling.BracedMeetsIff` has the exact condition,
  `JsSpelling.BracedWraps` a text for which it fails.
- A worker that asked in vain in WireGuard mode keeps the claim until its session
  ends, although the log says that it will retry: `ConfigClaim.VainAskCarriesOn` is
  the input, `ConfigClaim.VainAskFreesIff` the exact condition, and
  `ConfigClaim.VainClaimIsHeld` what follows for everybody else.
- A keepalive takes room in a priority queue outside the dispatcher's lock, so the
  packets there are not only those the dispatcher sent
  (`DispatcherRuns.PriorityInOrder`).
- A first reply to a probe that comes between the look of a tick and its failing
  send is lost with the socket (`TrafficWatch.ReplyCanBeLost`, with the exact
  condition in `TrafficWatch.ArmedIffHeard`).
- The consensus ranks of the slider count a tie for the lower number, so a candidate
  that is no higher in any of the three scores and lower in one can still stand behind
  another: `SliderGuesses.TiesOutweigh` is the input, `SliderGuesses.StandsFirstIff` the
  exact condition.
- A packet that fills its chunk and then a pause both move the dispatcher's pointer, so
  one worker is passed over (`ChunkRuns.PausePassesOneOver`).
- A comment says that a template with a substitution holds its literal parts only; the
  closing brace of the substitution is kept as well
  (`JsLiterals.TemplateWithSubstitutions`), which is why it never looks like a seed
  (`PowFound.SubstitutionIsNoSeed`).
- A comment says that a components array or a number corroborates the marker; a number
  from 1 to 16 is needed in any case, and without the marker the array
  (`PowAccepted.RecognisedIff`).

## Model

| member | source | states |
|---|---|---|
| JsWriting.ExtractionIgnoresRewriting | client/captcha_jslex.go:11-23 | The central promise, end to end, for any script body: write some of its values down in another way, say one call, with other quotes, escapes, number bases, whitespace and comments; if what stands before is read as tokens of the same meaning and the text behind is the same, whatever it holds, the search yields the same seed, difficulty and marker, or nothing in either |
| JsWriting.ExtractionIgnoresWriting | client/captcha_jslex.go:11-23 | The same for any number of such rewritings one after another, each of any words anywhere in the body |
| JsWriting.RewritingKeepsMeaning | client/captcha_jslex.go:72-407 | Two texts rewritten so are read to their ends as streams of the same meaning |
| JsTail.TailsReadAlike | client/captcha_jslex.go:72-407 | Two texts that were read up to some place as streams of the same meaning, with the same text behind it, whatever it holds, are read as such streams to their ends |
| JsTail.StepTail | client/captcha_jslex.go:117-404 | One turn of the lexer in a text is the same turn in its tail, shifted: for every scan, regular expressions, templates with substitutions and operators included |
| JsTail.RegexPosSame | client/captcha_jslex.go:76-113 | Two streams of tokens of the same meaning decide alike whether a slash behind them opens a regular expression; which do is JsOperators.DivisionRead and RegexRead |
| JsOperators.DivisionRead | client/captcha_jslex.go:76-113 | A slash that opens no comment is a division sign when the token before is a number, string, template or regular expression; a closing bracket of any sort, ++ or --; a name behind a point; "of" not behind a binding; or any name but thirteen keywords |
| JsOperators.RegexRead | client/captcha_jslex.go:348-383 | Print, then lex: at the start, behind any other mark and behind each of the keywords, a regular expression written from characters, escapes and classes, with any flags, is one token |
| JsOperators.OpenSlashRead | client/captcha_jslex.go:348-387 | If its line or the text ends inside the regular expression, an open class included, the slash is a division sign even there |
| JsOperators.OneOrTheOther | client/captcha_jslex.go:76-113 | Every stream of tokens is of exactly one of the two kinds, an operand or an operator last |
| JsOperators.OperatorRead | client/captcha_jslex.go:389-403 | Any other mark is read as the longest operator that stands there, given by its characters, or as itself |
| JsDigits.PrefixedNumberRead | client/captcha_pow.go:299-335 | Print, then read: any number written digit by digit by division in base 16, 8 or 2, in small or capital letters, with leading zeros, separators anywhere and a suffix, is read as itself up to 2^63 - 1 and as no number beyond |
| JsDigits.DecimalNumberRead | client/captcha_pow.go:299-335 | The same in decimal, for which the separators do not come first |
| JsDigits.SignedRead | client/captcha_pow.go:299-335 | With a sign in front the digits of a number are read as it or its negative, which may reach -2^63 |
| JsLiterals.DecimalPartsRead | client/captcha_jslex.go:286-336 | A number with any fraction, exponent and suffix is one token of its whole text |
| JsLiterals.FloatRead | client/captcha_pow.go:299-323 | A number with a fraction or an exponent is what the float reader makes of it without separators and suffix |
| JsLiterals.NegativeRead | client/captcha_pow.go:299-335 | A minus sign in front negates what a number is read as |
| JsLiterals.TemplateWithSubstitutions | client/captcha_jslex.go:246-284 | A template with substitutions, braces nested in them to any depth, backticks and all, is one token: its characters and, for each substitution, the closing brace |
| JsLiterals.StringCutOff | client/captcha_jslex.go:237-244 | A string whose line ends before its quote is a token of what stands before the end of the line |
| JsLiterals.NoEscape | client/captcha_jslex.go:176-235 | What a malformed \\x, a malformed \\u and the first byte of a longer character behind a backslash stand for |
| JsLiterals.NameRun | client/captcha_jslex.go:338-346 | A name is the longest run of letters, digits, $, _ and bytes from 128 up, not beginning with a digit |
| JsLiterals.SkippedIff | client/captcha_jslex.go:117-142 | By character code: blanks and comments are skipped and nothing else is |
| JsLiterals.StartedBy | client/captcha_jslex.go:144-346 | By character code: which characters start strings, templates and names |
| JsLiterals.NumberStarted | client/captcha_jslex.go:286 | And which start numbers |
| JsCharacters.Utf8Decodes | client/captcha_jslex.go:186-205 | Every code point is written in as few bytes as can be and decodes, by section 3 of RFC 3629, to itself, a surrogate to U+FFFD |
| JsCharacters.FourDigitsRead | client/captcha_jslex.go:186-193 | A \\u escape with four digits printed from a number is that character in UTF-8 |
| JsCharacters.BracedDigitsRead | client/captcha_jslex.go:194-205 | So is one in braces, with any number of leading zeros |
| JsCharacters.TwoDigitsRead | client/captcha_jslex.go:176-185 | A \\x escape with two digits printed from a number is that byte |
| JsWriting.SameBody | client/captcha_pow.go:92-111 | Two bodies whose token streams mean the same yield the same, in the marker pass and in the structure pass |
| JsWriting.BodyOnce | client/captcha_pow.go:92-111 | A body has one result only: the specification of the search is a function |
| JsRoundTrip.PrintThenLex | client/captcha_jslex.go:72-407 | Printer and lexer round trip: a script written from strings, templates without substitutions, integers, names, brackets, commas and semicolons, with any whitespace and comments, is lexed into exactly the tokens it was written from |
| JsRoundTrip.SpellingDoesNotMatter | client/captcha_jslex.go:11-23 | For one call: two texts that write the same values down as a call, each with its own quotes, escapes, number bases, whitespace, comments and surroundings, yield the same seed, difficulty and marker there, or both nothing |
| JsRoundTrip.WritingDoesNotMatter | client/captcha_pow.go:119-211 | For any two written calls whose tokens mean the same, and the result is the classification of the argument shapes alone |
| JsRoundTrip.WordsRead | client/captcha_jslex.go:117-404 | Print, then lex: words (atoms with their gaps) found where the lexer stands are read as exactly the tokens they denote, and the lexer stands behind them |
| JsRoundTrip.WordsInStream | client/captcha_jslex.go:117-404 | The tokens of a written call stand, contiguous, in the token stream of any text that contains it |
| JsRoundTrip.NumberMeans | client/captcha_pow.go:299-335 | Every decimal, 0x, 0o or 0b spelling, with separators and BigInt suffix, is read as the number of its digits, or as no number when there are none or more than 63 bits; that this number is the one the digits were printed from is JsDigits |
| JsRoundTrip.SameValueMeans | client/captcha_pow.go:135-165 | Equal text in any quotes and equal numbers in any base are the same to the classifier |
| JsSpelling.StringRead | client/captcha_jslex.go:148-244 | Scanning a string written with any mix of plain characters, escapes and line continuations yields its value and stops behind the closing quote |
| JsSpelling.EscapeRead | client/captcha_jslex.go:158-235 | Each of the escape forms (named, other, \\x, \\u, braced \\u, continued line) is read back as its value |
| JsSpelling.TemplateRead | client/captcha_jslex.go:249-284 | A template literal without substitutions, bare dollar signs and escaped characters included, is read as its text, from which escaped backticks are missing |
| JsSpelling.AtomRead | client/captcha_jslex.go:117-404 | Each written atom is read as one lexeme with its token and its span |
| JsSpelling.GapsSkipped | client/captcha_jslex.go:120-142 | Any whitespace and comments between tokens leave no trace |
| JsLexer.LexJS | client/captcha_jslex.go:72-407 | The loop of the lexer computes the lexical specification, on every byte string, and ends; what the specification makes of each kind of text is stated by JsOperators, JsSpelling and JsLiterals |
| JsLexer.TakeStep | client/captcha_jslex.go:117-404 | One turn of the main loop skips or emits what the specification says |
| JsLexer.ScanString | client/captcha_jslex.go:148-244 | The string loop with its escapes |
| JsLexer.ScanEscape | client/captcha_jslex.go:158-235 | The escape switch, case by case |
| JsLexer.ScanUnicodeEscape | client/captcha_jslex.go:186-209 | The two numeric forms of a \u escape, four digits or digits in braces, and what stands for a malformed one |
| JsLexer.ScanBraced | client/captcha_jslex.go:195-209 | The loop over the digits in braces, its sum wrapping at 64 bits, computes the escape that the specification reads digit by digit |
| JsSpelling.BracedIs | client/captcha_jslex.go:195-209 | An escape in braces is the character of its digits as one word, if the brace is closed and that word is below 0x110000, else a plain u |
| JsLexer.HexWordIs | client/captcha_jslex.go:196-201 | That sum is the number of the digits modulo 2^64, as a signed integer, for any number of digits |
| JsSpelling.BracedMeetsIff | client/captcha_jslex.go:195-209 | In any text, an escape in braces is the character its digits denote, or a plain u if they denote none or the brace stays open, if and only if the brace stays open, or the digits denote a code point, or their number cut to 64 bits lies past the last one |
| JsSpelling.BracedWraps | client/captcha_jslex.go:148-244 | The input where it is not: a quoted text with digits in braces for a number far past the last code point, lexed into the string A |
| JsLexer.ScanTemplate | client/captcha_jslex.go:249-284 | The template loop with its nesting depth |
| JsLexer.ScanNumber | client/captcha_jslex.go:286-336 | The number loops: prefixes, fraction, exponent, suffix |
| JsLexer.ScanRegex | client/captcha_jslex.go:348-383 | The regular expression loop: classes, escapes, flags, and giving up at a line end |
| JsLexer.ScanBlockComment | client/captcha_jslex.go:132-142 | The comment loop, also when the comment is never closed |
| JsLexer.NextStep | client/captcha_jslex.go:117-404 | Every step goes forward and stays within the text |
| JsSpans.LexCovers | client/captcha_jslex.go:72-407 | Tokens and skipped whitespace or comments tile the source exactly; verbatim tokens carry the bytes of their span |
| JsSpans.SpansAscend | client/captcha_jslex.go:72-407 | Token spans are non-empty, disjoint and strictly increasing |
| JsSpans.EveryByteAccountedFor | client/captcha_jslex.go:72-407 | Every byte lies either in a token or in a whole piece of whitespace or comment that touches no token, never in both |
| JsSpans.StepCovers | client/captcha_jslex.go:117-404 | What each step of the lexer keeps |
| CallWalk.ParseCallArgs | client/captcha_pow.go:247-295 | The forward walk closes exactly when the list closes properly somewhere, and then returns the arguments between its top-level commas |
| CallWalk.FindEnclosingCallOpen | client/captcha_pow.go:216-243 | The backward walk returns the innermost open bracket before a token if that is the "(" of a call, and -1 exactly if there is none |
| CallWalk.ClosesOnce | client/captcha_pow.go:247-295 | A list closes at no two places |
| CallWalk.EnclosedOnce | client/captcha_pow.go:216-243 | A token has no two innermost open brackets |
| CallWalk.ClosesBeyond | client/captcha_pow.go:216-295 | If both walks succeed, the closing bracket lies behind the token, at whose place the depth is zero |
| CallWalk.WalksAgree | client/captcha_pow.go:216-295 | The walks agree: the token lies at depth zero in exactly one returned argument, for every stream, ill-matched brackets included |
| CallWalk.BackwardFindsOpen | client/captcha_pow.go:216-295 | Conversely, from a place in a list that closes, the backward walk finds its opener exactly when the depth there is zero |
| CallWalk.JoinUndoesSplit | client/captcha_pow.go:247-295 | Joining the arguments with commas gives back the tokens between the brackets; no arguments means an empty region |
| CallWalk.ArgsSelfContained | client/captcha_pow.go:247-295 | Each argument is balanced, with no top-level comma or semicolon and no statement keyword at its head |
| CallJoin.SplitUndoesJoin | client/captcha_pow.go:247-295 | The converse: a list written from self-contained arguments closes and is split into exactly those |
| PowMeaning.MeaningDecides | client/captcha_pow.go:119-211 | Two calls of the same meaning carry the same seed wherever each stands and whatever stands around it |
| PowMeaning.SeedIsLocal | client/captcha_pow.go:119-211 | A call is classified by its own argument shapes, whatever stands before and behind |
| PowMeaning.SameCallShapes | client/captcha_pow.go:133-165 | Tokens of the same meaning make the same call with the same shapes |
| PowMeaning.CallOfArgs | client/captcha_pow.go:247-295 | A callee, "(", arguments with commas, ")" is a call with the shapes of those arguments |
| PowSeed.ClassifyCallAround | client/captcha_pow.go:119-211 | The result is that of the one call related to the token, or nothing if there is no such call |
| PowSeed.ClassifyArgs | client/captcha_pow.go:133-211 | The passes over the arguments accept exactly the seed calls and return their one candidate, first difficulty and first marker |
| PowSeed.SortShapes | client/captcha_pow.go:139-165 | The pass over the arguments separates strings, levels and the one array, and fails only on another shape or a second array |
| PowSeed.SortTexts | client/captcha_pow.go:167-179 | The marker is the first hinted string; the candidates are the other seed-shaped ones |
| PowSeed.CountKnown | client/captcha_pow.go:181-186 | How many items are known component names |
| PowSeed.AcceptedSeed | client/captcha_pow.go:133-211 | An accepted seed has the 6 to 64 character shape, carries no hint word, is an argument, and is the only such argument |
| PowExtract.ExtractPowFromBodies | client/captcha_pow.go:92-111 | The seed of the first body that yields one, marker pass before structure pass |
| PowExtract.ExtractedSeed | client/captcha_pow.go:92-211 | Whatever is extracted comes from a properly closed call of 3 to 6 arguments in one of the bodies |
| PowExtract.OrderBlind | client/captcha_pow.go:133-211 | Permuting the arguments changes neither acceptance nor the seed, nor the difficulty if all levels are equal, nor the marker if all hinted strings are |
| PowExtract.DifficultyFixedIff | client/captcha_pow.go:133-211 | For an accepted call the difficulty is the same in every order of the arguments if and only if all its levels are equal |
| PowExtract.MarkerFixedIff | client/captcha_pow.go:167-211 | And the marker if and only if all its hinted strings are equal |
| PowOrder.TwoDifficulties | client/captcha_pow.go:92-211 | The bodies f("abcdef","pow_timeout",1,2) and f("abcdef","pow_timeout",2,1): the same arguments, yielding the difficulties 1 and 2 |
| PowOrder.TwoMarkers | client/captcha_pow.go:92-211 | The bodies f("abcdef","pow_timeout","my_seed",1) and f("abcdef","my_seed","pow_timeout",1): the same arguments, yielding the markers pow_timeout and my_seed |
| PowBody.CallYields | client/captcha_pow.go:92-211 | A body that is one call of strings and numbers, the marker among them, yields from end to end what its arguments classify as, if they are accepted |
| PowBody.MarkedYields | client/captcha_pow.go:92-211 | So does a stream of tokens with such a call anywhere in it, if the marker stands nowhere else |
| PowBody.ArgsYield | client/captcha_pow.go:133-211 | With any seed, any hinted strings, the marker among them, and any numbers from 1 to 16, at most five in all, such a body yields the seed, the first number and the first hinted string |
| PowDivision.CallBehindDivision | client/captcha_jslex.go:76-113 | A division behind a closing bracket in front of a call, and another behind it, leave the extraction as it is |
| PowDivision.DivisionKeepsSeed | client/captcha_jslex.go:76-113 | The body x=(a)/2;f("abcdef","pow_timeout",1);y=b/2, end to end: it yields abcdef with difficulty 1 |
| PowFound.BodyFoundIff | client/captcha_pow.go:92-111 | A body yields a seed if and only if the marker stands as an argument in a seed call of it, or a bracket opens one |
| PowFound.FoundIff | client/captcha_pow.go:119-211 | Around a token a seed is found if and only if it stands in, or opens, an argument list that is a seed call: the list written out by its brackets, commas, semicolons and keywords |
| PowFound.DepthCounted | client/captcha_pow.go:216-295 | How deep a token stands is the brackets opened before it less those closed |
| PowFound.SubstitutionIsNoSeed | client/captcha_jslex.go:246-249 | A template with a substitution is read as neither a seed nor the marker |
| PowAccepted.RecognisedIff | client/captcha_pow.go:119-208 | Argument by argument, which lists are accepted: three to six of strings, numbers and arrays, at most one array, exactly one string that can be the seed, and a number from 1 to 16 in marker mode or else an array of at least four known names |
| PowAccepted.RecognisedSeed | client/captcha_pow.go:133-211 | Then the seed is that string, the difficulty the first number from 1 to 16, and the marker the first hinted string |
| PowAccepted.HintedIff | client/captcha_pow.go:167-175 | A string without the first byte of U+0130 is hinted if and only if pow, timeout or seed stands in it in any capitals |
| PowOrder.OrderBlindInPlace | client/captcha_pow.go:119-211 | Two calls with permuted arguments, each standing anywhere in any token stream under any callee: both are accepted or neither, with the same seed, and with the same difficulty and marker unless the arguments offer different ones |
| PowOrder.SeedOfArgs | client/captcha_pow.go:119-211 | Wherever a call stands, the recogniser makes of it what it makes of its arguments |
| PowExtract.AcceptancePermuted | client/captcha_pow.go:133-211 | Acceptance and candidates survive permutation |
| NonceCounter.NonceRepeats | client/obfs.go:123-166 | Two packets of a session share a nonce exactly when their numbers are equal modulo 2^48: the bound is sharp |
| NonceCounter.NoncesDistinct | client/obfs.go:154-166 | Any run of at most 2^48 packets, across the wrap of the 64-bit counter, has pairwise distinct nonces |
| NonceCounter.NumberRecovered | client/obfs.go:163-164 | The map from packet number below 2^48 to (sequence number, timestamp) is a bijection onto all pairs, with its inverse given |
| NonceCounter.EveryPairReached | client/obfs.go:163-164 | Every pair of sequence number and timestamp is carried by its packet number |
| NonceCounter.PairRepeats | client/obfs.go:163-164 | The pair has period exactly 2^48 |
| NonceCounter.TsLinear | client/obfs.go:164 | With its three 32-bit truncations the timestamp is linear in both halves of the counter |
| NonceCounter.NonceDetermines | client/obfs.go:123-130 | A nonce determines its source, sequence number and timestamp |
| NonceCounter.HighByteFirst | client/obfs.go:123-130 | Numbers are written in network order, the high byte first |
| ObfsState.WrapPacket | client/obfs.go:149-196 | Wrapping an empty payload fails and changes nothing; otherwise it returns the wire form for the current count and the next 61 random bytes, and advances both |
| ObfsState.ObfsState.Take | client/obfs.go:156-161 | The locked section: the count goes up by one in 64 bits and exactly 61 bytes of the reservoir are used |
| ObfsState.ObfsState.FillRandom | client/obfs.go:110-116 | Bytes come from the chunk at hand, or from a fresh one when it does not hold enough |
| ObfsState.BuildPacket | client/obfs.go:168-195 | The buffer filled in place is the wire form: header, sealed text, padding, padding count |
| ObfsState.PaddingNeverReused | client/obfs.go:110-116 | No byte of the system randomness pads two packets, whatever others read in between |
| ObfsState.RefillsCounted | client/obfs.go:110-116 | N packets on a new state cost exactly ceil(N/67) refills, and the position is known |
| ObfsState.WireNoncesDistinct | client/obfs.go:149-196 | On the wire: no two of 2^48 consecutive packets of one state carry the same nonce |
| ObfsPacket.RoundTrip | client/obfs.go:149-255 | Unwrapping undoes wrapping if and only if the drawn padding is not 255 and the destination is large enough; for 255 the fault is a zero padding count |
| ObfsPacket.ModesRoundTrip | client/obfs.go:43-59 | In both modes every packet passes the RTP check and round-trips, for all padding randomness |
| ObfsPacket.AcceptedIffSplits | client/obfs.go:202-255 | Unwrapping returns a text exactly when the packet is a version 2 header (12 or 24 bytes by its X bit), a text sealed under the header's nonce, and announced padding |
| ObfsPacket.UnwrapPacket | client/obfs.go:202-255 | Writes the plain text and nothing else into the destination, or reports the first fault in the order of the checks |
| ObfsPacket.SplitOutcome | client/obfs.go:202-255 | What becomes of a packet that splits, by the length of its text, the room and the authentication |
| ObfsPacket.HeaderFaults | client/obfs.go:202-239 | Which packets do not split, and the fault reported, by their length, first byte and last byte |
| ObfsPacket.ModeOnWire | client/obfs.go:43-59 | The first two bytes, the padding and its count on the wire in the audio and in the video mode |
| ObfsPacket.WireLooksLikeRtp | client/obfs.go:172-272 | Length, RTP check, nonce fields, and the last byte counts the padding as section 5.1 of RFC 3550 says, unless it overflowed |
| ObfsPacket.Header | client/obfs.go:172-184 | The header fields read back as they were put in |
| Checksum.ChecksumVerifies | client/probe_linux.go:159-181 | Storing the checksum in a zero field at an even offset makes the checksum zero, for every length and parity, 32-bit overflow included |
| Checksum.ComputeChecksum | client/probe_linux.go:169-181 | The accumulating and folding loops end and compute the folded 32-bit sum |
| Checksum.OddIsPadded | client/probe_linux.go:173-176 | An odd number of bytes is summed up as if a zero byte followed |
| Checksum.AgreesWithStandard | client/probe_linux.go:169-181 | The result is that of section 1 of RFC 1071 exactly when the 32-bit overflows leave no trace, so always up to 131074 bytes |
| Checksum.DisagreesBeyond | client/probe_linux.go:169-181 | A buffer of 131076 bytes for which it is not |
| Checksum.FoldIsCanonical | client/probe_linux.go:177-179 | Folding is reduction modulo 65535 that keeps zero apart |
| Checksum.ComplementFits | client/probe_linux.go:169-181 | Adding its complement to any 32-bit sum neither overflows nor leaves a remainder |
| Checksum.IcmpEcho | client/probe_linux.go:159-165 | For every identifier the request has its fields in place and verifies |
| ChunkScheduler.ClosedForm | client/dispatcher.go:366-453 | With fixed workers with room, packets over 1100 bytes and no switch on time, packet i goes to worker (r + (c + i)/64) mod n |
| ChunkRuns.PlacedBy | client/dispatcher.go:366-453 | The closed form for runs of packets of any sizes at any times, pauses, old chunks and small packets included: with room in the ordinary queues packet i goes as many workers on from the first as the run so far has moves |
| ChunkRuns.OrdinaryChoice | client/dispatcher.go:366-453 | One ordinary packet, whatever queues are full: more than 10 ms after the last, or with a chunk 15 ms old, it finds the next worker, else the current one; it goes to the first with room from there, and the pointer follows |
| ChunkRuns.PriorityChoice | client/dispatcher.go:366-399 | A packet of at most 128 bytes goes to the first priority queue with room from the current worker on, or after a pause from the next |
| ChunkRuns.ChunkLengths | client/dispatcher.go:80-93 | The chunk lengths 64, 24, 8, 3 and 1 at their size limits |
| ChunkRuns.PausePassesOneOver | client/dispatcher.go:369-375 | A packet that fills its chunk and then a pause move the pointer twice, so that one worker is passed over |
| ChunkScheduler.PointerIsExpected | client/dispatcher.go:366-453 | The pointer, count and chunk start after k such packets |
| ChunkScheduler.DroppedIff | client/dispatcher.go:378-453 | A packet is dropped exactly when every ordinary queue is full (or there are no workers) and, for 128 bytes or less, every priority queue too; a chosen queue has room |
| ChunkScheduler.DecideInBounds | client/dispatcher.go:366-453 | The pointer stays within the worker list and its count below 64 |
| ChunkScheduler.ChunkIsYoung | client/dispatcher.go:402-441 | After a packet that reached the ordinary queues the current chunk is 0 to 14 ms old, for a positive clock that does not go back |
| ChunkScheduler.ScanSeesAll | client/dispatcher.go:382-396 | The cyclic search misses no worker |
| Dispatcher.Dispatcher.Dispatch | client/dispatcher.go:359-462 | The locked part of the read loop: pointer, outcome and all queues after one packet are those decided, with the packet at the end of one queue or none; what is decided is ChunkRuns.OrdinaryChoice and PriorityChoice |
| Dispatcher.Dispatcher.SendOrdinary | client/dispatcher.go:413-453 | The ordinary stage in place |
| Dispatcher.Dispatcher.Register | client/dispatcher.go:230-236 | A worker joins at the end; the pointer stays in bounds; the list has no double exactly if the worker was not in it |
| Dispatcher.Dispatcher.Unregister | client/dispatcher.go:250-266 | Exactly that worker leaves, the others keep their order, the pointer comes back into bounds and the count to zero |
| Dispatcher.PointerAfterLeaving | client/dispatcher.go:250-266 | The pointer stays on its worker if that stands before the one that left, and otherwise comes to the next that remains, round the end if need be |
| DispatcherRuns.HistoriesPartition | client/dispatcher.go:354-462 | Over every run what all queues have handed out and still hold, with what was lost, is what was offered, arrivals and keepalives: none missing, none twice |
| DispatcherRuns.OrdinaryInOrder | client/dispatcher.go:354-462 | What left an ordinary queue, then what is in it, are the arrivals sent there, in order of arrival |
| DispatcherRuns.PriorityInOrder | client/session.go:616-640 | The same for a priority queue, into which the keepalive of the session puts packets too: with those removed, its history is exactly the arrivals sent there, in order, and with them exactly what was offered to it and found room |
| DispatcherRuns.LostIff | client/dispatcher.go:354-462 | In every reachable state, keepalives having taken room, which arrivals are lost, a dispatch being one step |
| DispatcherRuns.LostAsTried | client/dispatcher.go:378-453 | Whatever each of its attempts found: an arrival is lost exactly if every queue that it may use was full when it was tried |
| DispatcherRuns.WithinCapacity | client/dispatcher.go:354-462 | Over every run no queue holds more than its channel has room for |
| DispatcherRuns.KeepaliveLostIff | client/session.go:616-640 | A keepalive is lost if and only if its session's priority queue is at its capacity |
| DispatcherRuns.PointerOverRuns | client/dispatcher.go:230-453 | Pointer bounds and chunk age over every run, with workers coming and going |
| DispatcherRuns.After | client/dispatcher.go:230-462 | Every run of arrivals, keepalives, takings, joinings and leavings keeps the invariant: queue contents, known places, distinct members, pointer bounds |
| DispatcherRuns.SameAsInPlace | client/dispatcher.go:359-462 | An arrival does to the queues in a run what it does to those of the class |
| DispatcherRuns.UnregisteredAsInPlace | client/dispatcher.go:250-266 | And a worker that leaves is removed from the list as the class removes it |
| BufferOwnership.ExactlyOnePlace | client/dispatcher.go:25-37 | Over every interleaving each buffer made and not yet forgotten by the pool is in exactly one place: pool, one channel, or one hand |
| BufferOwnership.NeverReturnedTwice | client/session.go:646-771 | A buffer being returned is nowhere else, and no goroutine returns or sends what it does not hold |
| BufferOwnership.StopsEmptyHanded | client/session.go:616-771 | A goroutine that has stopped has kept no buffer |
| BufferOwnership.StopsDrained | client/session.go:646-672 | A writer stops only when it has found its priority channel empty and then, at that very step, its ordinary one |
| BufferOwnership.OneTrip | client/session.go:646-771 | A buffer's way: made, filled, sent, taken, paced, written and given back, each step allowed and moving just it |
| BufferOwnership.Registered | client/dispatcher.go:230-236 | A session that registers gets a new slot to which packets may be sent, and its three goroutines |
| BufferOwnership.AlwaysSound | client/dispatcher.go:354-529 | The ownership invariant over every interleaving of both loops, writers, readers, keepalives and membership changes |
| BufferOwnership.EffectSound | client/session.go:616-771 | What each step of each goroutine does to the places |
| BufferOwnership.CodeChanges | client/session.go:616-771 | The control flow of each goroutine fills and empties its hand exactly when it moves a buffer |
| SliderTiles.ApplySwaps | client/captcha_v2_slider.go:362-383 | Swapping in place succeeds exactly on whole pairs of existing tiles; then every tile is shown once, and each place shows the tile that the pairs, read backwards, trace it to |
| SliderTiles.SwappedIsPermutation | client/captcha_v2_slider.go:362-383 | Any accepted swaps make a permutation; which one is SliderTiles.OnePairMore |
| SliderTiles.OnePairMore | client/captcha_v2_slider.go:362-383 | By indices: one more pair makes its two places change what they show and leaves all others; without swaps every place shows its own tile |
| SliderTiles.ShownAt | client/captcha_v2_slider.go:377-381 | Each place shows the tile it is traced back to, pair by pair from the last |
| SliderTiles.SwapsUndone | client/captcha_v2_slider.go:377-381 | Swaps followed by the same pairs in reverse bring every tile back |
| SliderTiles.TilesPartition | client/captcha_v2_slider.go:385-394 | The g x g tile rectangles partition the image: each pixel is in exactly one tile, and tiles contain nothing else, for every size |
| SliderTiles.TileEdges | client/captcha_v2_slider.go:385-394 | The tile in a row and a column reaches from edge to edge of both |
| SliderTiles.EdgeIs | client/captcha_v2_slider.go:385-394 | Edge k of g begins at the last pixel that k of g equal parts of the side reach |
| SliderTiles.TilesNotEmpty | client/captcha_v2_slider.go:385-394 | Tiles are non-empty when the image is at least as wide and high as the grid |
| SliderSeams.SeamScoreLuma | client/captcha_v2_slider.go:414-458 | The nested loops add up the luma differences over exactly the listed pairs of pixels |
| SliderSeams.EverySampleInside | client/captcha_v2_slider.go:535-554 | Each pixel compared lies inside the tile shown at its place, and the two places are neighbours |
| SliderSeams.PairsCounted | client/captcha_v2_slider.go:414-458 | A score compares exactly (g - 1)(W + H) pairs, for every mapping and size |
| SliderSeams.ScoreBounded | client/captcha_v2_slider.go:414-458 | The score is at most 255 (g - 1)(W + H) |
| SliderPicture.ScoreOfPicture | client/captcha_v2_slider.go:414-458 | For an image at least as large as the grid the seam score is what the rearranged picture differs along its inner column edges over the whole height and along its inner row edges over the whole width |
| SliderPicture.UnmovedPicture | client/captcha_v2_slider.go:535-547 | An image that is not rearranged is shown as it is |
| SliderPicture.SampleShifts | client/captcha_v2_slider.go:535-547 | Between tiles of one size the sampled pixel is the shifted one |
| SliderSeams.SampleInProportion | client/captcha_v2_slider.go:535-547 | Between tiles of different sizes the sampled pixel is the one in proportion, rounded down |
| SliderSeams.LumaWeights | client/captcha_v2_slider.go:549-554 | Luma is the greatest number of thousandths that 299, 587 and 114 times the high bytes of red, green and blue make up; a grey keeps its value |
| SliderSeams.Luma | client/captcha_v2_slider.go:549-554 | A luma value fits into a byte |
| SliderGuesses.RankGuesses | client/captcha_v2_slider.go:222-349 | Given the luma scores, returns every candidate once, the first five of at least five fully scored, in the order that the counts of strictly lower scores decide |
| SliderGuesses.ScoreStage2 | client/captcha_v2_slider.go:240-300 | The second stage gives the chosen candidates their scores in whatever order they are taken |
| SliderGuesses.SumRanks | client/captcha_v2_slider.go:222-334 | The rank tables built from the sorted lists add up to the consensus |
| SliderGuesses.ScoreCandidate | client/captcha_v2_slider.go:209-221 | One candidate: its swaps done in place, then the loops over its seams; it fails exactly when its swaps do, and else yields its entry of the table of seam scores |
| SliderGuesses.ScoreLuma | client/captcha_v2_slider.go:209-221 | All candidates so: it fails exactly when some swap is out of range, and else fills the table |
| SliderGuesses.RankSliderGuesses | client/captcha_v2_slider.go:209-349 | The ranking for an image, seam loops included: it fails exactly if there are no candidates or a swap is out of range; otherwise every candidate is returned once, the first five of at least five fully scored, and each stands before another as the raw scores say |
| SliderStanding.LowestTwelve | client/captcha_v2_slider.go:222-238 | In terms of the raw scores: twelve go on to be scored, or all, and no other has a lower seam score than one of them |
| SliderStanding.TwelveAreTop | client/captcha_v2_slider.go:222-238 | Those are the candidates chosen |
| SliderStanding.ConsensusCounts | client/captcha_v2_slider.go:302-334 | The consensus of a candidate is, added up over the three scores, how many candidates stand ahead of it with a lower score, or an equal one and a lower number |
| SliderGuesses.StandsFirstIff | client/captcha_v2_slider.go:302-347 | Of two fully scored candidates one stands before the other if and only if it is ahead by more candidates, in the three raw scores together, than it is behind, or by as many and its seam score is lower, or equal and its number lower |
| SliderGuesses.BetterStandsFirst | client/captcha_v2_slider.go:302-347 | So it does if it is lower in all three raw scores, or no higher in any and has the lower number |
| SliderGuesses.TiesOutweigh | client/captcha_v2_slider.go:302-347 | The input where a candidate no higher in any score and lower in one stands behind another: ties count for the lower number in every score |
| SliderGuesses.LumaBounded | client/captcha_v2_slider.go:414-458 | Every seam score in that ranking is between 0 and 255 (g - 1)(W + H) |
| SliderRanking.FirstFiveScored | client/captcha_v2_slider.go:215-348 | For every candidate count of at least five the first five of the ranking, so both that can be submitted, are among the twelve scored by all three measures |
| SliderRanking.RankingUnique | client/captcha_v2_slider.go:336-347 | The ranking depends on the scores alone, not on map order or scheduling |
| SliderRanking.TopSum | client/captcha_v2_slider.go:325-334 | The twelve fully scored candidates have consensus ranks summing to 198 |
| SliderRanking.OthersRankLow | client/captcha_v2_slider.go:325-334 | Every other candidate has a consensus of at least 25 |
| SliderRanking.SumOfRanks | client/captcha_v2_slider.go:302-323 | Ranks of k distinct elements among themselves add up to k(k - 1)/2 |
| SliderRanking.SortedUnique | client/captcha_v2_slider.go:336-347 | There is one increasing list of given elements |
| SliderRanking.SortIncreasing | client/captcha_v2_slider.go:222-228 | What sorting yields |
| ConfigClaim.SentAtMostOnce | client/session.go:500-557 | Over every interleaving the configuration is delivered at most once, the "already delivered" branch is never taken, nothing is sent on the closed channel, and nobody asks afterwards |
| ConfigClaim.OneAsks | client/group.go:206-239 | At most one session is asking at any time |
| ConfigClaim.OnlyWantingAsk | client/group.go:206-239 | Only workers of the first group ever ask, and only before the configuration was recorded as sent |
| ConfigClaim.ClaimNeverLost | client/group.go:206-239 | While nothing is delivered the claim is taken exactly if some worker is in, or just out of, the session that took it |
| ConfigClaim.FailureIsRetried | client/group.go:233-239 | Once the session of a request that yielded nothing has ended, any worker that looks next gets to ask |
| ConfigClaim.VainAskFreesIff | client/session.go:500-557 | A request that yields nothing ends the session, so that its claim can be freed at once, if and only if the mode is raw or the server refused the login |
| ConfigClaim.VainAskCarriesOn | client/session.go:538-557 | In WireGuard mode a failed or empty answer leaves the worker in its session with the claim: the input |
| ConfigClaim.VainClaimIsHeld | client/session.go:538-557 | From then on, in every continuation in which that session does not end, the claim stays taken, nothing is delivered and nobody asks |
| ConfigClaim.CanStillDeliver | client/group.go:206-239 | Yet from every reachable state with nothing delivered, some continuation delivers, for any worker that wants the configuration and is not done |
| ConfigClaim.AlwaysSound | client/group.go:51-239 | The invariant of claim, flags, slot and channel over every run |
| GroupChain.BuildChain | client/main.go:647-690 | Workers are numbered from 1 without gaps, every group but the last has nine and the last at least one, and each group waits on the channel its predecessor signals |
| GroupChain.ReleasedExactlyOnce | client/group.go:71-86 | No signal channel is closed twice, and a group that returned with the context alive has released its successor |
| GroupChain.FetchesInTurn | client/group.go:41-95 | A group fetches its first credentials only after every earlier group handed over or ended, so no two groups are at their first fetch at once |
| GroupChain.NeverStuck | client/main.go:647-697 | From every reachable state some continuation without a cancellation ends all groups |
| GroupChain.HandsOverRunning | client/group.go:71-173 | A group whose credentials come hands over when its timer fires, while its workers run |
| GroupChain.AllRunAtOnce | client/group.go:41-173 | All groups can run at once: a hand-over does not wait for workers to finish |
| GroupChain.CancelledEnds | client/group.go:41-173 | Once the context is over, from every reachable state some continuation without waking or fetching ends all groups, and those that had asked for credentials hand over on the way |
| GroupChain.FirstCanMove | client/group.go:41-173 | The first group that has not ended can always move on |
| GroupChain.AlwaysSound | client/group.go:41-173 | The invariant of the hand-over chain over every run |
| TrafficWatch.GivesUpIff | client/netifd.go:300-477 | In terms of the events, the sockets they open and close included: a device tunnel is given up at a tick if and only if some reply was heard and not lost, the watch has run for five minutes, and every tick since then saw the counter of now |
| TrafficWatch.GivesUpAtFirstLateTick | client/netifd.go:371-477 | Once armed with inbound stopped, it gives up at the first tick at or past five minutes, whatever becomes of the probe sockets, and not before |
| TrafficWatch.ArmedIffHeard | client/netifd.go:436-476 | The watch is armed if and only if a reply reached an open probe and was not lost with it; it knows of an answer if and only if a later tick looked while that probe was open |
| TrafficWatch.ReplyCanBeLost | client/netifd.go:436-476 | A first reply between the look of the second tick and its failing send is lost: the input |
| TrafficWatch.SocketTracked | client/netifd.go:451-476 | The watch holds a probe socket exactly if, by what its probes did, one was opened and no send since then has failed |
| TrafficWatch.RelayGivesUpIff | client/netifd.go:358-360 | A relay is given up at a tick if and only if it has received bytes, the watch has run for five minutes, every tick since then saw the same inbound counter and some tick saw the outbound one move |
| TrafficWatch.ProbesIff | client/netifd.go:341-350 | A look that does not give up asks for a probe if and only if, while no reply was heard, the client is less than five minutes old, and afterwards if the inbound counter has stood still for half a minute |
| TrafficWatch.InboundTracked | client/netifd.go:402-408 | While it runs, the watch knows when the inbound counter last moved |
| TrafficWatch.OutboundTracked | client/netifd.go:397-425 | And a relay whether the outbound counter has moved since a given time |
| TrafficWatch.Watcher.OnTick | client/netifd.go:395-447 | The first part of a tick in place: what it reads, and whether it gives up or goes on to probe |
| TrafficWatch.Watcher.SendProbe | client/netifd.go:451-476 | The second part: opening the probe, sending, and dropping it |

## Left out

- HTTP, TLS, the calling service's API, DTLS, TURN, sockets, TUN devices, netifd scripts and logging: foreign code and I/O.
- The cipher and its key derivation: any cipher that opens what it sealed, with 16 bytes more, will do.
- The passes over the HTML page that find script bodies and undo entities: the model starts from script bodies.
- `strconv.ParseFloat`: a parameter of the number reader; spellings with a point or an exponent are compared by its answer.
- JsRoundTrip.PrintThenLex: operators, regular expressions, numbers with a point or an exponent and templates with substitutions may surround what is rewritten and are each printed and read back (`JsOperators`, `JsLiterals`), but are not among the words of a printed script; nor does a printed script end in a bare name or number with nothing behind it.
- Characters from 128 up in identifiers count byte by byte, and Unicode case folding of hint words goes no further than it can reach ASCII letters.
- Nothing of a token is left out; a lexeme here also records where it ends, which the code does not keep.
- ObfsPacket.UnwrapPacket: after a failed authentication the destination may hold anything, because the cipher's interface leaves it open.
- The padding bytes themselves: they come from the reservoir in order, but that they are unpredictable is not stated.
- How fast queues drain, the rate limiters, and reading from the device: a run may contain any takings and arrivals.
- BufferOwnership.AlwaysSound: does not model channel capacities or waiting, so a channel may take a buffer where the code would drop it; every interleaving of the code is among those modelled.
- BufferOwnership.ExactlyOnePlace: says where buffers are and not in which order a channel hands them out, which is what `DispatcherRuns.OrdinaryInOrder` and `DispatcherRuns.PriorityInOrder` say of packets.
- That no packet is stranded in a queue after a writer has drained it: packets that arrive between the draining and the removal of the worker stay there.
- A limit of 64 packets in a row per worker: pauses, priority packets and full neighbours can bring the pointer back to the same worker.
- JsSpelling.StringRead: a malformed \x or \u escape, and a backslash before a byte E2 that begins no line separator, are not among the printed pieces; what they are read as is `JsLiterals.NoEscape`.
- JsSpelling.EscapeRead: leaves out the same three.
- DispatcherRuns.LostIff: takes a dispatch as one step; in the code a writer may make room in a queue after it was tried, and `DispatcherRuns.LostAsTried` speaks of each queue as it was then, each being tried once.
- DispatcherRuns.HistoriesPartition: says nothing of packets that could not be read from the device.
- The colour and text seam scores: floating point with an exponential; the ranking takes them as given and real-valued.
- SliderTiles.ApplySwaps: does not model overflow of the squared grid size.
- The simulated cursor path, the number of attempts, and the submission of guesses.
- GroupChain.FetchesInTurn: the credentials a running group fetches anew belong to no link of the chain and are not counted.
- Retry delays, back-off, stagger between workers, the credentials cache and its refresh: time does not decide anything stated here.
- ConfigClaim.SentAtMostOnce: a panic inside a session is not modelled.
- GroupChain.NeverStuck: a pause flag that is never cleared, or a fetch that never returns, is the environment's doing and not counted as being stuck.
- The status file, the worker counts and the relay list that the interface reports.
- Account pages, migration, packaging, captcha identities, name generation, DNS presets, query escaping, hash parsing, queue sizing: they would only add easy members.
