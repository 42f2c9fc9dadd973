# promptchat components, modelled in Dafny

This project models the logic of four React components of the promptchat
prototype, a "Chatify Prompt Builder" page. It covers:

- **Tutorial dialog** (`tutorial_dialog.dfy`). `getEmbedUrl` rewrites a YouTube link to its
  `https://www.youtube.com/embed/<id>` form using a regular expression. The model is the
  search a backtracking regex engine performs for that pattern:
  - the greedy `^.*` makes the marker group land on the rightmost alternative that starts
    at or before the first line terminator;
  - the ID group then takes the longest run free of `#`, `&` and `?`;
  - only an 11-character ID is rewritten, and every other link comes back unchanged.
- **Example prompts** (`prompt_examples.dfy`). A fixed table of ten prompts, filtered by a
  case-insensitive `includes` on the title or the prompt text. It also models the copy and
  "use this prompt" buttons on each shown card.
- **Header** (`mini_header.dfy`). A class with the component's three state fields. It has a
  connect/disconnect toggle through a QR-code popup and a video-link field. "Add" hands
  the field to a callback and empties it, but only when the field is not blank.
- **Prompt editor** (`prompt_editor.dfy`). A class holding the prompt text. Clear and
  reset overwrite it, and submit classifies it as rejected (blank) or sent.
- **Shared pieces.** `js_string.dfy` holds JavaScript `trim`, per-character `toLowerCase` and
  `includes` over `seq<char>`, using the WhiteSpace and LineTerminator sets of sections
  12.2 and 12.3 of ECMA-262. `wrappers.dfy` holds `Option` and the toast value type.

Effects become values:
- A toast is a `Toast` datatype.
- The clipboard write and the select callback are a `CardEffect`.
- The `onTutorialAdded` callback is the `Option<string>` that `HandleAddVideo` returns.
- The `console.log` line is the `logged` field of `SubmitOutcome`: its two arguments, the label and the prompt.

The prompt editor is a plain text area (`src/components/PromptEditor.tsx:85-90`). No code
in these components highlights URLs in the prompt, so no such behaviour is modelled.

## Model

| member | source | states |
|---|---|---|
| JsString.IsLineTerminator | src/components/TutorialDialog.tsx:16 | The LineTerminator set (LF, CR, U+2028, U+2029) that `.` does not match and `trim` strips. A predicate with no ensures; JsString.TrimEmptyIffAllWhitespace and TutorialDialog.FirstLineTerminator state what rests on it. |
| JsString.IsWhiteSpace | src/components/MiniHeader.tsx:33 | The WhiteSpace set (TAB, VT, FF, ZWNBSP and the Zs space separators) that `trim` strips. A predicate with no ensures; JsString.TrimEmptyIffAllWhitespace states what rests on it. |
| JsString.IsJsWhitespace | src/components/PromptEditor.tsx:17 | What `trim` strips: WhiteSpace or LineTerminator. A predicate with no ensures; JsString.TrimStart, JsString.TrimEnd and JsString.TrimEmptyIffAllWhitespace state what rests on it. |
| JsString.TrimStart | src/components/MiniHeader.tsx:33 | The result is a suffix of the input; everything cut off is whitespace and the result does not start with whitespace. |
| JsString.TrimEnd | src/components/MiniHeader.tsx:33 | The result is a prefix of the input; everything cut off is whitespace and the result does not end with whitespace. |
| JsString.Trim | src/components/PromptEditor.tsx:17 | `trim` yields a contiguous slice of the input; everything cut off before and after it is whitespace, and its first and last characters are not. |
| JsString.IsBlank | src/components/PromptEditor.tsx:17 | The guard `!s.trim()`, as `Trim(s) == []`. It has no ensures of its own; JsString.BlankIffAllWhitespace states what it means. |
| JsString.TrimEmptyIffAllWhitespace | src/components/PromptEditor.tsx:17 | `trim` yields `""` exactly when every character is WhiteSpace or LineTerminator. |
| JsString.BlankIffAllWhitespace | src/components/MiniHeader.tsx:33 | The falsy-trim test `!s.trim()` holds exactly when the string is all whitespace. |
| JsString.LowerChar | src/components/PromptExamples.tsx:71-72 | ASCII capitals map to their lower-case letter; characters outside the Latin capitals are unchanged. |
| JsString.ToLower | src/components/PromptExamples.tsx:71-72 | Lowering keeps the length. |
| JsString.ToLowerConcat | src/components/PromptExamples.tsx:71-72 | Lowering distributes over concatenation. |
| JsString.ToLowerIdempotent | src/components/PromptExamples.tsx:71-72 | Lowering twice is lowering once. |
| JsString.IncludesWitness | src/components/PromptExamples.tsx:71-72 | When `includes` holds, the needle occurs at the index returned. |
| JsString.OccurrenceIncluded | src/components/PromptExamples.tsx:71-72 | Any occurrence of the needle makes `includes` hold. |
| JsString.IncludesIffOccurs | src/components/PromptExamples.tsx:71-72 | `includes` holds exactly when the needle occurs at some index of the haystack. |
| JsString.IncludesEmpty | src/components/PromptExamples.tsx:71-72 | Every string includes the empty string. |
| JsString.IncludesPrefix | src/components/PromptExamples.tsx:71-72 | A string that includes `needle + more` includes `needle`. |
| JsString.Includes | src/components/PromptExamples.tsx:71-72 | `String.prototype.includes`, by recursion over the suffixes. It has no ensures of its own; JsString.IncludesIffOccurs, JsString.IncludesEmpty and JsString.IncludesPrefix state its properties. |
| TutorialDialog.EmbedPrefix | src/components/TutorialDialog.tsx:20 | The template `https://www.youtube.com/embed/` the ID is appended to. A constant; TutorialDialog.EmbedPrefixTail and TutorialDialog.EmbedPrefixPlain state its shape. |
| TutorialDialog.IsWordChar | src/components/TutorialDialog.tsx:16 | The `\w` of `u/\w/`: an ASCII letter, digit or underscore. A predicate with no ensures; TutorialDialog.AltMatches uses it. |
| TutorialDialog.IsIdStop | src/components/TutorialDialog.tsx:16 | The characters `#`, `&` and `?` that end the class `[^#&?]*`. A predicate with no ensures; TutorialDialog.IdEnd states what rests on it. |
| TutorialDialog.MarkerLength | src/components/TutorialDialog.tsx:16 | Each alternative of the marker group consumes between 2 and 9 characters. |
| TutorialDialog.AltMatches | src/components/TutorialDialog.tsx:16 | One alternative of the marker group, character by character, with `.` in `youtu.be` as any non-line-terminator. It has no ensures; TutorialDialog.AlternativesExclusive and TutorialDialog.MarkerHasSeparator state its properties. |
| TutorialDialog.AlternativesExclusive | src/components/TutorialDialog.tsx:16 | No two alternatives match at the same index. |
| TutorialDialog.MarkerAt | src/components/TutorialDialog.tsx:16 | The alternatives tried in the pattern's order at one index. It has no ensures; TutorialDialog.MarkerAtSound states its properties. |
| TutorialDialog.MarkerAtSound | src/components/TutorialDialog.tsx:16 | The alternative tried at an index matches there, and none is reported only when none matches. |
| TutorialDialog.LineTerminatorFrom | src/components/TutorialDialog.tsx:16 | The index found is a line terminator, or the end, with none before it from the start index. |
| TutorialDialog.FirstLineTerminator | src/components/TutorialDialog.tsx:16 | How far `^.*` reaches: no line terminator before it, and one at it unless it is the end. |
| TutorialDialog.ScanBack | src/components/TutorialDialog.tsx:16 | The backtracking of `^.*`, one index at a time towards 0. It has no ensures; TutorialDialog.ScanBackSound states its properties. |
| TutorialDialog.ScanBackSound | src/components/TutorialDialog.tsx:16 | Backtracking from an index finds the greatest index at or below it where an alternative matches, or reports there is none. |
| TutorialDialog.IdEnd | src/components/TutorialDialog.tsx:16 | `[^#&?]*` stops at the first `#`, `&` or `?`, or at the end. |
| TutorialDialog.MatchYouTube | src/components/TutorialDialog.tsx:16-17 | No match exactly when no alternative starts within reach of `^.*`. Otherwise the marker is the rightmost such candidate and group 2 is the longest run free of `#&?` right after it. |
| TutorialDialog.GetEmbedUrl | src/components/TutorialDialog.tsx:12-24 | `getEmbedUrl`. It has no ensures of its own; TutorialDialog.EmbedUrlUnchanged, TutorialDialog.EmbedUrlRewritten, TutorialDialog.EmbedUrlShape and TutorialDialog.GetEmbedUrlIdempotent state its properties. |
| TutorialDialog.EmbedUrlUnchanged | src/components/TutorialDialog.tsx:13-23 | The empty link gives `""`. No match, or an ID of another length than 11, gives the link unchanged. |
| TutorialDialog.EmbedUrlRewritten | src/components/TutorialDialog.tsx:19-20 | A match with an 11-character ID gives the embed prefix followed by that ID. |
| TutorialDialog.RightmostCandidateIsMatch | src/components/TutorialDialog.tsx:16 | Conversely, a candidate with no candidate after it within reach is the position the match reports. |
| TutorialDialog.EmbedUrlShape | src/components/TutorialDialog.tsx:19-23 | The result is the input, or the embed prefix followed by 11 characters free of `#&?`. |
| TutorialDialog.ReachesAtLeast | src/components/TutorialDialog.tsx:16 | `^.*` reaches at least as far as the leading stretch free of line terminators. |
| TutorialDialog.MarkerHasSeparator | src/components/TutorialDialog.tsx:16 | Every alternative contains a `/`, `?` or `&` at a fixed offset. |
| TutorialDialog.NoMarkerWithoutSeparator | src/components/TutorialDialog.tsx:16 | No alternative starts in a tail free of `/`, `?` and `&`. |
| TutorialDialog.NoMarkerAroundQuery | src/components/TutorialDialog.tsx:16 | A single `?` not followed by `v` in such a tail still admits no alternative. |
| TutorialDialog.MarkerHasNoLineTerminator | src/components/TutorialDialog.tsx:16 | No character an alternative matches is a line terminator. |
| TutorialDialog.NoMarkerBeforeTerminator | src/components/TutorialDialog.tsx:16 | No alternative starts in a stretch free of `/`, `?` and `&` that ends at a line terminator, the terminator included. |
| TutorialDialog.EmbedLinkMarker | src/components/TutorialDialog.tsx:16 | In an embed link, `embed/` is a candidate and no alternative starts inside `mbed/`. |
| TutorialDialog.EmbedLinkMatch | src/components/TutorialDialog.tsx:16-17 | For an ID free of `#`, `&` and `?`, the embed link `EmbedPrefix + id` matches either at its `embed/` with the ID as group 2, or at a marker past the prefix. |
| TutorialDialog.GetEmbedUrlIdempotent | src/components/TutorialDialog.tsx:12-24 | Rewriting an already rewritten link changes nothing. |
| TutorialDialog.EmbedPrefixPlain | src/components/TutorialDialog.tsx:20 | The embed prefix holds no line terminator. |
| TutorialDialog.EmbedPrefixTail | src/components/TutorialDialog.tsx:20 | The embed prefix is 30 characters long and ends in `embed/`. |
| TutorialDialog.WatchPrefixPlain | src/components/TutorialDialog.tsx:16 | The `watch?v=` link head holds no line terminator. |
| TutorialDialog.WatchPrefixTail | src/components/TutorialDialog.tsx:16 | The `watch?v=` link head is 32 characters long and ends in `watch?v=`. |
| TutorialDialog.ShortPrefixFacts | src/components/TutorialDialog.tsx:16 | The `youtu.be/` link head is 17 characters, free of line terminators, with `youtu.be/` at 8. |
| TutorialDialog.WatchLinkMarker | src/components/TutorialDialog.tsx:16 | In a `watch?v=` link whose ID has no separator, `watch?v=` is the rightmost candidate. |
| TutorialDialog.WatchLinkRewritten | src/components/TutorialDialog.tsx:15-20 | Every `watch?v=` link with an 11-character ID free of `/#&?` becomes the embed link of that ID. |
| TutorialDialog.ShortLinkMarker | src/components/TutorialDialog.tsx:16 | In `ShortPrefix + id + "?" + query`, for an 11-character ID free of `/`, `&` and `?` and a query free of `/`, `&` and `?` that does not start with `v`, `youtu.be/` is a candidate and no alternative starts after it. |
| TutorialDialog.ShortLinkRewritten | src/components/TutorialDialog.tsx:15-20 | For an 11-character ID free of `/#&?` and a query free of `/&?` that does not start with `v`, `ShortPrefix + id + "?" + query` becomes the embed link of that ID: the ID stops at the `?`. |
| TutorialDialog.TrailingVMarker | src/components/TutorialDialog.tsx:16 | In `head + "&v=" + tail`, when the head holds no line terminator and the tail no `/`, `&` or `?`, the `&v=` is a candidate and no alternative starts after it. |
| TutorialDialog.TrailingVParamWins | src/components/TutorialDialog.tsx:16-23 | In `head + "&v=" + tail`, when the head holds no line terminator and the tail no `/#&?`, the final `&v=` wins over every earlier marker, so a tail of another length than 11 leaves the link unchanged. |
| TutorialDialog.TrailingVParamRewritten | src/components/TutorialDialog.tsx:16-20 | In `head + "&v=" + tail`, when the head holds no line terminator and the tail is 11 characters free of `/#&?`, the link becomes the embed link of the tail, whatever marker the head holds. |
| TutorialDialog.ShortLinkLaterVParam | src/components/TutorialDialog.tsx:16-20 | `https://youtu.be/dQw4w9WgXcQ?t=1&v=abcdefghijk` becomes the embed link of `abcdefghijk`: the later `&v=` wins over `youtu.be/`. |
| TutorialDialog.LineTerminatorStopsReach | src/components/TutorialDialog.tsx:16-20 | In `v/abcdefghij\n&v=abc` the `^.*` stops at the `\n`, so `v/` is the match and group 2 is the 11 characters `abcdefghij\n`, which are rewritten. |
| TutorialDialog.WatchLinkScenario | src/components/TutorialDialog.tsx:15-20 | `https://www.youtube.com/watch?v=dQw4w9WgXcQ` becomes `https://www.youtube.com/embed/dQw4w9WgXcQ`. |
| TutorialDialog.ShortLinkScenario | src/components/TutorialDialog.tsx:15-20 | `https://youtu.be/dQw4w9WgXcQ?t=10` becomes `https://www.youtube.com/embed/dQw4w9WgXcQ`. |
| TutorialDialog.RightmostMarkerScenario | src/components/TutorialDialog.tsx:16-23 | `...watch?v=dQw4w9WgXcQ&v=abc` is left unchanged, because the later `&v=abc` is the match. |
| PromptExamples.Filter | src/components/PromptExamples.tsx:70-73 | The result keeps exactly the matching entries, is an order-preserving subsequence of the input and is no longer than it. |
| PromptExamples.FilterCounts | src/components/PromptExamples.tsx:70-73 | A matching entry is kept exactly as often as it occurs in the input, and any other entry never. |
| PromptExamples.FilteredPrompts | src/components/PromptExamples.tsx:70-73 | The shown list has at most as many entries as the table, each a matching table entry. |
| PromptExamples.Matches | src/components/PromptExamples.tsx:71-72 | The filter callback: the lowered title or the lowered prompt includes the lowered term. It has no ensures; PromptExamples.FilterCaseInsensitive and PromptExamples.LongerTermMatchesLess state its properties. |
| PromptExamples.ExamplePrompts | src/components/PromptExamples.tsx:9-60 | The ten entries, string for string. A constant; PromptExamples.TableIds states its ids. |
| PromptExamples.TableIds | src/components/PromptExamples.tsx:9-60 | The table has ten entries with ids 1 to 10 in order. |
| PromptExamples.SubsequenceMembers | src/components/PromptExamples.tsx:70 | Every entry of a subsequence is an entry of the original. |
| PromptExamples.SubsequenceKeepsIdsAscending | src/components/PromptExamples.tsx:70 | Deleting entries keeps ids strictly ascending. |
| PromptExamples.FilteredIdsAscending | src/components/PromptExamples.tsx:9-73 | At most ten cards are shown, with distinct, strictly ascending ids. |
| PromptExamples.FilterAllMatch | src/components/PromptExamples.tsx:70-73 | When every entry matches, the filter returns its input. |
| PromptExamples.EmptyTermKeepsAll | src/components/PromptExamples.tsx:67-73 | The empty search term shows the whole table. |
| PromptExamples.FilterIdempotent | src/components/PromptExamples.tsx:70-73 | Filtering twice with one term is filtering once. |
| PromptExamples.FilterCaseInsensitive | src/components/PromptExamples.tsx:71-72 | Terms that lower alike give the same result. |
| PromptExamples.SearchIgnoresCase | src/components/PromptExamples.tsx:71-72 | Searching for the lowered term shows the same cards as the term itself. |
| PromptExamples.LongerTermMatchesLess | src/components/PromptExamples.tsx:71-72 | An entry matching a longer term matches every start of it. |
| PromptExamples.ExtendingTermNarrows | src/components/PromptExamples.tsx:71-72 | Extending the term gives a subsequence of the previous result. |
| PromptExamples.SubsequenceSkip | src/components/PromptExamples.tsx:70 | A subsequence stays one when an entry is put in front of the original. |
| PromptExamples.ClickCard | src/components/PromptExamples.tsx:75-124 | A click acts only on a shown card. "Use" hands over that card's prompt text, and "copy" puts it on the clipboard with the "Prompt copiado!" toast lasting 2000 ms. |
| MiniHeader.Header.constructor | src/components/MiniHeader.tsx:14-16 | Initially not connected, popup hidden and the link field empty. |
| MiniHeader.Header.ShownConnectionButton | src/components/MiniHeader.tsx:49-69 | "Desconectar" is shown exactly while connected, "Conectar WhatsApp" exactly while not. |
| MiniHeader.Header.HandleConnect | src/components/MiniHeader.tsx:18-20 | Opens the QR-code popup and changes nothing else. |
| MiniHeader.Header.HandleDisconnect | src/components/MiniHeader.tsx:22-24 | Drops the connection and changes nothing else. |
| MiniHeader.Header.HandleQRCodeClose | src/components/MiniHeader.tsx:26-30 | Hides the popup and marks the header connected; the link field is unchanged. |
| MiniHeader.Header.HandleVideoUrlChange | src/components/MiniHeader.tsx:86-91 | Typing stores exactly the typed text and changes nothing else. |
| MiniHeader.Header.HandleAddVideo | src/components/MiniHeader.tsx:32-37 | A blank field emits nothing and changes nothing. Otherwise the untrimmed text goes to the callback and the field is emptied. |
| MiniHeader.Header.ClickConnectionButton | src/components/MiniHeader.tsx:49-69 | The shown button disconnects while connected and opens the popup while not. |
| MiniHeader.AddVideoTwice | src/components/MiniHeader.tsx:32-37 | A second "add" right after the first emits nothing and changes nothing: the field ends empty after a successful first add and untouched after a blank one, and the flags are kept. |
| MiniHeader.ConnectionRound | src/components/MiniHeader.tsx:18-30 | Connect, close the popup and disconnect: the header is back to disconnected with the popup hidden. |
| PromptEditor.DefaultPrompt | src/components/PromptEditor.tsx:40 | The literal "Restaurar" puts back, character for character. A constant; PromptEditor.DefaultPromptNotBlank and PromptEditor.Editor.HandleReset state what rests on it. |
| PromptEditor.DefaultPromptNotBlank | src/components/PromptEditor.tsx:39-41 | The default prompt is not all whitespace. |
| PromptEditor.Editor.constructor | src/components/PromptEditor.tsx:13 | The prompt starts empty. |
| PromptEditor.Editor.HandleSubmit | src/components/PromptEditor.tsx:16-33 | It rejects with the destructive "Prompt vazio" toast exactly when the prompt is all whitespace. Otherwise it sends with the "Prompt enviado!" toast and logs `Prompt enviado:` followed by the prompt verbatim. It modifies nothing. |
| PromptEditor.Editor.HandleClear | src/components/PromptEditor.tsx:35-37 | The prompt becomes empty. |
| PromptEditor.Editor.HandleReset | src/components/PromptEditor.tsx:39-41 | The prompt becomes the default text. |
| PromptEditor.Editor.HandleChange | src/components/PromptEditor.tsx:85-90 | The prompt becomes exactly the typed text. |
| PromptEditor.ClearThenSubmit | src/components/PromptEditor.tsx:16-37 | A submit right after clearing is rejected. |
| PromptEditor.ResetThenSubmit | src/components/PromptEditor.tsx:16-41 | A submit right after a reset sends and logs the default prompt. |
| PromptEditor.ClearIsIdempotent | src/components/PromptEditor.tsx:35-37 | The prompt after two clears equals the prompt after the first, which is empty. |
| PromptEditor.ResetIsIdempotent | src/components/PromptEditor.tsx:39-41 | The prompt after two resets equals the prompt after the first, which is the default text. |
| PromptEditor.EditThenSubmitTwice | src/components/PromptEditor.tsx:16-33 | After typing a non-blank text, two submits both send exactly that text. |

## Left out

- The QR-code popup (`src/components/QRCodePopup.tsx`) is not part of this model. Its 1500 ms loading timer and random cell pattern are timing and randomness.
- Page wiring in `src/pages/Index.tsx` is not part of this model. The page passes `prompt` and `setPrompt` to the editor, but the editor ignores them and keeps its own state. A selected example therefore never reaches the editor, and the model does not pretend it does.
- The toasts, the clipboard write, the callbacks and `console.log` are returned values, not effects. The toast's presentation and lifetime are not modelled.
- Rendering (JSX, CSS, dialogs, popovers, the iframes) is not modelled.
- JsString.LowerChar: lowers only the Basic Latin and Latin-1 capitals. Full Unicode case mapping, including special casing such as the final sigma, is not modelled, because the properties proved need only that lowering works per character.
- UTF-16: strings are sequences of Unicode scalar values (Dafny's `char`), whereas JavaScript strings, `.length` and a regex without the `u` flag work on UTF-16 code units. The model agrees with the source only on strings without characters above U+FFFF. Such a character counts 1 here and 2 in `.length`, so an ID holding one is 11 long here where `match[2].length` is 12, and the `.` in `youtu.be` matches it whole here but only half of it in JavaScript. Lone surrogates cannot be represented at all.
- TutorialDialog.WatchLinkRewritten, TutorialDialog.ShortLinkRewritten and TutorialDialog.TrailingVParamWins: stated for the link shapes they name, built from the prefix constants, and only under their preconditions, rather than for every URL. The general behaviour is stated by TutorialDialog.MatchYouTube. The preconditions matter:
  - WatchLinkRewritten and ShortLinkRewritten need an 11-character ID free of `/#&?`.
  - ShortLinkRewritten also needs a query free of `/&?` that does not start with `v`. TutorialDialog.ShortLinkLaterVParam shows why: for `https://youtu.be/dQw4w9WgXcQ?t=1&v=abcdefghijk` the later `&v=` is the match, and the link becomes the embed link of `abcdefghijk`.
  - TrailingVParamWins needs a head without line terminators and a tail free of `/#&?`. TutorialDialog.LineTerminatorStopsReach shows why: in `v/abcdefghij\n&v=abc` the `^.*` cannot pass the `\n`, so the `v/` wins and group 2 is the 11 characters `abcdefghij\n`.
- PromptEditor.DefaultPrompt is written as three concatenated literals that spell the default text exactly, so that its first letter can be inspected.
