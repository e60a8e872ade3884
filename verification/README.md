# Form-fill, editing and flattening algorithms of the PDF SDK layer

This project models the self-contained algorithms of `fpdfsdk/` and proves what they promise. Code that builds its
result step by step is modelled by methods and classes with the same branches, each proved equal to a specification
function or to a stated property; the results below are lemmas over those functions, for every input or every run.

- **Text encoders.** `ToUnicode` is the compression of a charcode-to-unicode multimap into single codes, lists and
  runs, and `EntryRoles` tells from an entry's neighbours which of these it becomes. `CMapText` prints the tables as the
  words of a CMap stream and `CMapReader` is the library's own reader of such streams; `CMapRoundTrip`, `CMapOrder` and
  `CMapTheorem` compose the two. `GlyphWidths` does the same for the `/W` array of a composite font and the code that
  loads it.
- **Content stream builders.** `EditStream` compiles placed words to text operators, and an operator interpreter
  (section 9.4 of ISO 32000-1) says what is shown where. `ContentGrammar` is the state machine of figure 9 of
  ISO 32000-1; `AppStreams` and `PushButtons` build the appearance streams of form fields, and `StreamContents` reads
  off any stream what it shows.
- **Flattening.** `FlattenMatrix` (fitting matrix), `FlattenKeys` (fresh resource name), `GraphicsState` (the q/Q
  machine and what wrapping does to a page), `PageContents` (rewriting of `/Contents` in a document of numbered,
  possibly shared objects), `FlattenForm` (the form XObject) and `Flatten` (the whole operation).
- **Searches with a visited set.** `Bookmarks` and `Actions`, over graphs that may share nodes or be circular.
- **Orders.** `TabOrder` and `TabOrderTheorems` (the tab key), `AnnotIteration` (painting and hit testing).
- **Callbacks that refuse or destroy.** `Focus` (focus changes and page view removal) and `MouseCapture`, both with
  handlers that call back into the same operations to any depth.
- **Parsing.** `PageRange`.

Coordinates are reals. Dictionaries, annotations and pages are numbers or records; a destroyed object's number is
never used again, so a pointer that observes an object is a number that is null once the object is gone.
A handler's behaviour is an input of each operation: a finite tree of the operations it performs and its answer.
Library code takes its usual meaning: `std::sort` gives some sorted arrangement, `std::stable_sort` the stable one,
`std::multimap::find` the first element stored for a key, `atoi` the value of a numeral up to `INT_MAX` and nothing
defined beyond it.

Where the code does less than its comments or the format suggest, the code is kept, a concrete input is given, and the
exact condition is proved:

- a code with two unicodes in the multimap loses one of them (`EntryRoles.LosslessIff`, `LosslessIffNoLoneTwice`;
  `DuplicateCodeLoses`);
- the printed CMap is not always read back (`ReaderRecoversIff`, `RecoversIffNoneBroken`; `SharedGlyphFails`,
  `LoneSurrogateFails`, `RunAcrossSurrogatesFails`): a code is answered once, a surrogate is written as 0, a run is cut
  by the low byte of the code alone, and 0xFFFF and the size of the multi-character buffer are limits of the reader;
- the `/W` array gives widths to glyphs that are not in a font subset with gaps (`RoundTripsIff`; `GapBreaksWidths`);
- a word whose font has no name is shown in the font before (`OwnFontIff`, `AllOwnFontIff`;
  `NamelessFontKeepsThePrevious`);
- a NUL byte cuts a push button's stream (`PushButtonWellFormedIff`; `NulInLabelBreaks`);
- wrapped page content with an unanswered Q changes unless it is back in the initial state there
  (`KeptBeforeAnyTailIff`; `UnansweredRestoreChangesPage`), and rewriting a page changes other pages that share its
  contents (`OtherPageKeepsContentIff`; `SharedArrayShowsForm`);
- the row tab order does not end for some annotations without a positive top (`RowsHangIff`; `RowBelowOriginHangs`), and
  the leader of a column need not be leftmost (`ColumnLeaderIs`, `ColumnLeaderLeftmostIff`; `LeaderNotLeftmost`);
- a set-focus handler may accept for an annotation that it has destroyed, and the client is told of a null annotation
  (`NullToldIff` for one call, `CarefulTellsNoNull` for whole runs; `AcceptedButGone`);
- enter and exit callbacks do not bracket when an enter or exit handler moves the mouse (`CallbacksBracket`,
  `EnterKeepsIff`, `ExitKeepsIff`, `SafeForeverIff`; `MoveInEnterBreaks`, `MoveInExitBreaks`).

## Model

| member | source | states |
|---|---|---|
| ToUnicode.LoadUnicode | fpdfsdk/fpdf_edittext.cpp:172-236 | The iterator loop, with its two inner loops, builds exactly the three tables of the greedy cut of the multimap. |
| ToUnicode.GroupsExpandToInput | fpdfsdk/fpdf_edittext.cpp:172-236 | The groups the loop cuts, expanded in order, are the input, duplicates included. |
| ToUnicode.GroupsWellCut | fpdfsdk/fpdf_edittext.cpp:189-236 | Every range has two or more codes, stays inside one block of 256, and the groups follow each other in code order. |
| ToUnicode.RangesKept | fpdfsdk/fpdf_edittext.cpp:207-235 | No range entry of either map is ever overwritten, whatever the duplicates. |
| ToUnicode.DecodingExact | fpdfsdk/fpdf_edittext.cpp:172-236 | The tables decode exactly the entries of ranges and, of single entries with one code, the last. |
| ToUnicode.CompressionSound | fpdfsdk/fpdf_edittext.cpp:172-236 | On any multimap every decoded pair is an input pair and every input code is decoded. |
| EntryRoles.PassRoles | fpdfsdk/fpdf_edittext.cpp:189-236 | What each pass of the loop does with an entry (alone, on a list, in a run) is what its neighbours in the multimap say: where the stretch of codes is entered, and whether the unicodes before it count up in pieces of two or more. |
| EntryRoles.DecodesIffKept | fpdfsdk/fpdf_edittext.cpp:189-236 | The tables decode exactly the entries of ranges and the last of the lone entries of each code, told from the multimap. |
| EntryRoles.LosslessIff | fpdfsdk/fpdf_edittext.cpp:189-236 | For every multimap: nothing is lost if and only if each pair occurs at an entry that survives. |
| EntryRoles.LosslessIffNoLoneTwice | fpdfsdk/fpdf_edittext.cpp:189-236 | With distinct unicodes, as in a font's character map: if and only if no two lone entries have one code. |
| ToUnicode.DuplicateCodeLoses | fpdfsdk/fpdf_edittext.cpp:192-196 | A multimap with two unicodes for one code, of which only the second is kept. |
| ToUnicode.LosslessForUniqueCodes | fpdfsdk/fpdf_edittext.cpp:172-236 | With unique codes the tables decode exactly the input, and cover each code once. |
| CMapText.WriteCMap | fpdfsdk/fpdf_edittext.cpp:237-274 | The printing loops write the words of the three sections, with counts that match, between header and footer. |
| CMapText.CodeWordReads | fpdfsdk/fpdf_edittext.cpp:148-156 | A printed charcode is read back by the CMap reader as the same number. |
| CMapText.UniWordReads | fpdfsdk/fpdf_edittext.cpp:155-170 | A printed unicode is read back as its UTF-16 code units, a surrogate value as 0. |
| CMapRoundTrip.LoadsStream | core/fpdfapi/font/cpdf_tounicodemap.cpp:83-226 | Reading the printed stream stores, for every code of the three tables, the value its item denotes, in order. |
| CMapOrder.TablesAreShaped | fpdfsdk/fpdf_edittext.cpp:189-236 | For every multimap with two-byte codes the tables have the shape the reader needs: ranges stay in their block. |
| CMapOrder.EmitsInOrder | fpdfsdk/fpdf_edittext.cpp:237-274 | What the reader is told, and in which order, told from the multimap: its entries by role, the lone ones first and once a code. |
| CMapTheorem.LookupIsFirstTold | core/fpdfapi/font/cpdf_tounicodemap.cpp:46-64 | On every multimap the reader answers a code with the first value it was told for it. |
| CMapTheorem.EachSurvivorToldOnce | fpdfsdk/fpdf_edittext.cpp:189-274 | For every multimap: each pair is told to the reader once for each of its entries that survives (every entry but the overwritten lone ones), and no other. |
| CMapTheorem.ReaderRecoversIff | fpdfsdk/fpdf_edittext.cpp:172-274 | For every multimap, repeated codes and surrogates included: print and read back give every entry's code its unicode if and only if each code has one unicode and the first value told of it is right, is not 0xFFFF and is within reach of the buffer. |
| CMapTheorem.RecoversIffNoneBroken | fpdfsdk/fpdf_edittext.cpp:172-274 | The same entry by entry, for multimaps that hold no pair twice: codes are unique, no unicode is 0xFFFF, no surrogate stands outside a run, no run steps over a 16-bit or high-surrogate border, and at most 21846 entries are supplementary. |
| CMapTheorem.RunAcrossSurrogatesFails | fpdfsdk/fpdf_edittext.cpp:224-235 | Two supplementary characters on either side of a high surrogate, written as one run, are not read back. |
| CMapTheorem.LoneSurrogateFails | fpdfsdk/fpdf_edittext.cpp:158-159 | A surrogate by itself is written as 0 and not read back. |
| CMapTheorem.SharedGlyphFails | fpdfsdk/fpdf_edittext.cpp:192-196 | A space and a no-break space that share a glyph are not both read back. |
| GlyphWidths.EncodeWidths | fpdfsdk/fpdf_edittext.cpp:387-435 | The loop appends exactly the items of the greedy cut into equal-width ranges and width arrays. |
| GlyphWidths.LoadsEncoded | core/fpdfapi/font/cpdf_cidfont.cpp:217-271 | Loading the array gives back the metrics of the groups, whatever state the loader was left in. |
| GlyphWidths.RoundTripsIffNoLoneStart | fpdfsdk/fpdf_edittext.cpp:387-434 | The widths come back for every glyph if and only if no group starts with a glyph that stands alone before a gap. |
| GlyphWidths.RoundTripsIff | fpdfsdk/fpdf_edittext.cpp:420-425 | The same condition on the glyph list alone: no stretch before a gap is equal-width blocks and then a single glyph. |
| GlyphWidths.GapBreaksWidths | fpdfsdk/fpdf_edittext.cpp:420-425 | Glyphs 1 and 3: glyph 2 gets a width that glyph 3 has. |
| EditStream.GetEditAppStream | fpdfsdk/cpdfsdk_appstream.cpp:589-681 | In both modes the interpreted stream shows exactly the words in order, each under the font set for it, at its line origin. |
| EditStream.ModesShowTheSame | fpdfsdk/cpdfsdk_appstream.cpp:589-681 | Continuous and plain mode show the same bytes under the same fonts. |
| EditStream.LineSharesOrigin | fpdfsdk/cpdfsdk_appstream.cpp:605-630 | In continuous mode all words of a line are shown from one origin. |
| EditStream.WordShownFrom | fpdfsdk/cpdfsdk_appstream.cpp:605-659 | Byte by byte: in plain mode a word is shown from its own position plus the offset, in continuous mode from that of the first place of its line. |
| EditStream.OffsetMovesAll | fpdfsdk/cpdfsdk_appstream.cpp:589-681 | A further offset moves every byte shown by exactly that much, and changes no byte and no font. |
| EditStream.OwnFontIff | fpdfsdk/cpdfsdk_appstream.cpp:567-581 | A word is shown in the font of its own index if and only if that has a name, the size is positive, and the program's initial index -1 has been left. |
| EditStream.ShownInOwnFontIff | fpdfsdk/cpdfsdk_appstream.cpp:567-581 | The same for each byte shown, by the font's name and size. |
| EditStream.AllOwnFontIff | fpdfsdk/cpdfsdk_appstream.cpp:589-681 | Every word is, if and only if every font has a name, the size is positive and the first word's index is not -1. |
| EditStream.NamelessFontKeepsThePrevious | fpdfsdk/cpdfsdk_appstream.cpp:571-573 | A word whose font has no name is shown in the font of the word before. |
| AppStreams.GetBorderAppStreamInternal | fpdfsdk/cpdfsdk_appstream.cpp:923-1042 | The border branches by style and colour write exactly the border stream. |
| AppStreams.GetBorderAppStream | fpdfsdk/cpdfsdk_appstream.cpp:1897-1928 | A widget's border by its style: the three-dimensional ones take twice the width, and colours of their own. |
| AppStreams.SetAsComboBox | fpdfsdk/cpdfsdk_appstream.cpp:1521-1590 | Background, border, text and drop button, with the scopes closed in reverse order of opening. |
| AppStreams.SetAsListBox | fpdfsdk/cpdfsdk_appstream.cpp:1592-1675 | The list box loop writes one item per option from the top visible one on, selected ones over a filled bar, after background and border. |
| AppStreams.SetAsTextField | fpdfsdk/cpdfsdk_appstream.cpp:1677-1824 | Background, border, text, and the comb lines of each border style. |
| AppStreams.FieldStreamsWellFormed | fpdfsdk/cpdfsdk_appstream.cpp:1521-1824 | All three streams are well nested in q/Q, BT/ET and BMC/EMC, with no q, Q or path operator inside a text object, for every field. |
| StreamContents.TextFieldShowsEdit | fpdfsdk/cpdfsdk_appstream.cpp:1677-1824 | The text objects read off the whole stream are one, over no bar, in the text colour, with exactly the operators of the edit; none for an empty edit. |
| StreamContents.ComboBoxShowsEdit | fpdfsdk/cpdfsdk_appstream.cpp:1521-1590 | The same for a combo box. |
| StreamContents.ListBoxShowsOptions | fpdfsdk/cpdfsdk_appstream.cpp:1592-1675 | One text object for each option from the top visible one on, with the operators of its edit, and a filled bar under exactly the selected ones. |
| StreamContents.BackdropPaths | fpdfsdk/cpdfsdk_appstream.cpp:1889-1928 | The paths every field paints first: its background rectangle and the shapes of its border style, none in a colour that is none. |
| StreamContents.TextFieldPaths | fpdfsdk/cpdfsdk_appstream.cpp:1766-1820 | After them n - 1 stroked lines for a comb of n cells, for solid and dashed borders with a colour, and a clip if and only if the text is too large. |
| StreamContents.DropButtonPaths | fpdfsdk/cpdfsdk_appstream.cpp:1044-1087 | The drop button is a filled face, a bevelled border and, with room, a filled triangle. |
| PushButtons.GetPushButtonAppStream | fpdfsdk/cpdfsdk_appstream.cpp:893-920 | The stream is the icon and label, cut at the first NUL byte, inside q and Q. |
| PushButtons.PushButtonWellFormedIff | fpdfsdk/cpdfsdk_appstream.cpp:893-920 | It is well formed if and only if icon alias and label hold no NUL byte. |
| PushButtons.NulInLabelBreaks | fpdfsdk/cpdfsdk_appstream.cpp:899-918 | A label with the two-byte code 00 41 leaves the stream inside its text object. |
| StreamContents.PushButtonShows | fpdfsdk/cpdfsdk_appstream.cpp:893-920 | Without NUL bytes the icon is drawn once, under two clips and its two matrices, and the label is one text object with the operators of its edit. |
| FlattenMatrix.TransformConcat | core/fxcrt/fx_coordinates.cpp:441-472 | The product of two matrices applies the first and then the second. |
| FlattenMatrix.ImageIsBoundingBox | core/fxcrt/fx_coordinates.cpp:452-472 | The image of a rectangle holds the images of all its points, and each side goes through that of a corner. |
| FlattenMatrix.FitsExactly | fpdfsdk/fpdf_flatten.cpp:233-248 | For every form matrix and box with a non-degenerate image, the box drawn through both matrices covers exactly the annotation rectangle. |
| FlattenKeys.FindKey | fpdfsdk/fpdf_flatten.cpp:309-319 | The least free name, and no name if and only if all INT_MAX names are used. |
| FlattenKeys.SomeKeyIsFree | fpdfsdk/fpdf_flatten.cpp:309-319 | Fewer than INT_MAX names leave one of the first INT_MAX free (the printed numbers are all different). |
| GraphicsState.BottomIsUntouched | core/fpdfapi/page/cpdf_streamcontentparser.cpp:969-981 | Content that pops no more than it pushes neither sees nor touches what lies under it on the stack. |
| GraphicsState.KeepsMeaningIff | fpdfsdk/fpdf_flatten.cpp:176-231 | Content that never pops below its start keeps its painting; the form comes under the initial state if and only if the content is balanced or its innermost open q saved that state. |
| GraphicsState.KeepsMeaningDippingIff | fpdfsdk/fpdf_flatten.cpp:176-231 | For content with an unanswered Q, wrapping is a question about the rest alone: it must paint alike from the two states and come back to the initial one. |
| GraphicsState.KeptBeforeAnyTailIff | fpdfsdk/fpdf_flatten.cpp:201-221 | Content up to an unanswered Q may be followed by anything if and only if it is back in the initial state there. |
| GraphicsState.UnansweredRestoreChangesPage | fpdfsdk/fpdf_flatten.cpp:201-221 | Content whose painting the wrapping changes. |
| PageContents.SetPageContents | fpdfsdk/fpdf_flatten.cpp:188-231 | The stepwise rewriting of document and contents entry, in all three forms, as one function of both. |
| PageContents.RewriteMeans | fpdfsdk/fpdf_flatten.cpp:188-231 | Stream form and array form come to the same content: q, the old content, Q and the form. |
| PageContents.RewriteFrame | fpdfsdk/fpdf_flatten.cpp:188-231 | No object but the contents object is changed. |
| PageContents.OtherPageKeepsContentIff | fpdfsdk/fpdf_flatten.cpp:188-231 | Another page runs what it ran if and only if it neither has the rewritten contents object as its own nor lists it, a stream, in its array. |
| PageContents.SharedContents | fpdfsdk/fpdf_flatten.cpp:203-231 | What the other pages run then: a shared stream gains q and Q, wherever it is listed; a shared array gains the form too. |
| PageContents.SharedArrayShowsForm | fpdfsdk/fpdf_flatten.cpp:203-231 | Two pages with one empty contents array, of which flattening one puts its form on the other. |
| FlattenForm.ParserAnnots | fpdfsdk/fpdf_flatten.cpp:97-120 | The loop collects exactly the annotations that are no pop-up, not hidden, and shown for the usage, in order. |
| FlattenForm.ChosenAre | fpdfsdk/fpdf_flatten.cpp:97-120 | Told by the entries: in their order, those that are no pop-up, without the hidden flag, and without the invisible or, for printing, with the print flag. |
| FlattenForm.DrawAnnotations | fpdfsdk/fpdf_flatten.cpp:337-423 | The loop over the annotations, with its ways to find and to skip an appearance, as a function of the document. |
| FlattenForm.FormPaintsAnnotations | fpdfsdk/fpdf_flatten.cpp:337-423 | The form, interpreted, paints exactly the appearance streams, in annotation order, each under its own matrix, and leaves the graphics state alone. |
| FlattenForm.PaintsNamedState | fpdfsdk/fpdf_flatten.cpp:345-385 | Told by the annotation: what is painted is its one appearance, or the state that AS names, nothing when AS names none, the first state when there is no AS; nothing without an area, the Rect entry deciding over BBox. |
| FlattenForm.DrawnFrame | fpdfsdk/fpdf_flatten.cpp:380-399 | Each form name is for one annotation drawn so far and names an object that stays as it is; older objects keep their content, boxes and matrices. |
| FlattenForm.PaintedCoversAnnotation | fpdfsdk/fpdf_flatten.cpp:378-416 | Whatever is painted covers exactly its annotation's rectangle, unless the image of its box has no width or height. |
| Flatten.FlattenPage | fpdfsdk/fpdf_flatten.cpp:252-426 | Without annotations nothing changes; else the content ends with a form of a name the page had not used, which paints the chosen annotations, and of the older objects only the contents object gets other content. |
| Flatten.FlattenedPageShows | fpdfsdk/fpdf_flatten.cpp:252-426 | A page with balanced content or none, that uses the resources it has, shows what it showed, and then the chosen appearance streams in order. |
| Bookmarks.Finder.FindBookmark | fpdfsdk/fpdf_doc.cpp:35-60 | The recursive search, its loop and its growing visited set, for every outline: it ends with the result of the specification. |
| Bookmarks.FindsIffReachable | fpdfsdk/fpdf_doc.cpp:35-60 | A reachable match is found, and nothing is found if and only if no item reachable by child and sibling links matches, however links are shared or circular. |
| Bookmarks.FindsFirstInPreorder | fpdfsdk/fpdf_doc.cpp:35-60 | On a tree the result is the first match in preorder. |
| Actions.RunsWalkUpToRepeat | fpdfsdk/cpdfsdk_actionhandler.cpp:134-163 | Execution ends on every graph, runs the preorder walk up to the first repeated dictionary, none twice, and succeeds if and only if none repeats. |
| Actions.SucceedsIffOnePathEach | fpdfsdk/cpdfsdk_actionhandler.cpp:134-196 | Success means exactly that no dictionary is reached along two paths, and then all reachable ones have run. |
| Actions.FieldRunIsCut | fpdfsdk/cpdfsdk_actionhandler.cpp:208-243 | The field variant runs what the others run, up to and with the first script that invalidates the field. |
| Actions.NothingAfterInvalidation | fpdfsdk/cpdfsdk_actionhandler.cpp:222-231 | No action but the last one run has invalidated the field. |
| Actions.FieldStopsAtFirstKill | fpdfsdk/cpdfsdk_actionhandler.cpp:208-243 | Told by the document: the field's run is a prefix of the document's, no script before its last action kills the field, the last one does when it is cut short, and it succeeds if and only if nothing was cut or killed. |
| Actions.EffectsAre | fpdfsdk/cpdfsdk_actionhandler.cpp:141-162 | The effects are those of the actions run, in order, once for each time one ran: a script as a script, anything else as what it is, and nothing for a script without text or platform. |
| Actions.RunEffects | fpdfsdk/cpdfsdk_actionhandler.cpp:134-163 | From the start: a script is run, and any other action performed, if and only if the run reaches it, and nothing is done twice. |
| Actions.ActionHandler.ExecuteDocumentAction | fpdfsdk/cpdfsdk_actionhandler.cpp:134-196 | The recursion with its mutated visited set performs the effects of the specified run, in order. |
| Actions.ActionHandler.ExecuteFieldAction | fpdfsdk/cpdfsdk_actionhandler.cpp:208-243 | The same for the field variant, with the validity test after each script. |
| TabOrder.AnnotIterator.GenerateResults | fpdfsdk/cpdfsdk_annotiterator.cpp:113-185 | Sort, leader scan, selection by index and erasing in place give the groups of some sorted arrangement; the result says whether the loop would never end. |
| TabOrder.AnnotIterator.GetNextAnnot | fpdfsdk/cpdfsdk_annotiterator.cpp:53-61 | The annotation after the given one, or none. |
| TabOrder.AnnotIterator.GetPrevAnnot | fpdfsdk/cpdfsdk_annotiterator.cpp:63-68 | The annotation before the given one, or none. |
| TabOrder.RowLeaderIff | fpdfsdk/cpdfsdk_annotiterator.cpp:125-134 | The row leader is the last, from the left, of the greatest positive tops; there is none if and only if no top is positive. |
| TabOrder.ErasedIsOuter | fpdfsdk/cpdfsdk_annotiterator.cpp:91-99 | Erasing the selected places from the last one down leaves exactly the annotations outside the leader, in order. |
| TabOrderTheorems.CollectedAre | fpdfsdk/cpdfsdk_annotiterator.cpp:70-80 | Collected are, in the view's order, the annotations of the subtypes asked for that are no signatures. |
| TabOrderTheorems.GroupsInCoordinates | fpdfsdk/cpdfsdk_annotiterator.cpp:119-185 | In coordinates: sorted by left or from the top down, each follower's centre strictly between the leader's edges, none of those left over, and no row leader below or left of a rival. |
| TabOrderTheorems.GroupsArrange | fpdfsdk/cpdfsdk_annotiterator.cpp:119-185 | The groups and what is stuck are together the sorted list, nothing lost and nothing twice. |
| TabOrderTheorems.GroupsAreWellGrouped | fpdfsdk/cpdfsdk_annotiterator.cpp:119-185 | A group's followers are exactly the remaining annotations whose centre lies strictly inside the leader, in sorted order; a row leader has the greatest top left, ties going to the greatest left. |
| TabOrderTheorems.RowsHangIff | fpdfsdk/cpdfsdk_annotiterator.cpp:124-136 | The row loop never ends if and only if an annotation without positive top lies inside no leader of those with one. |
| TabOrderTheorems.RowBelowOriginHangs | fpdfsdk/cpdfsdk_annotiterator.cpp:124-136 | One annotation below the origin is enough. |
| TabOrderTheorems.RowsTakeAll | fpdfsdk/cpdfsdk_annotiterator.cpp:119-149 | With positive tops the row loop ends and the result is a permutation. |
| TabOrderTheorems.ColumnsTakeAll | fpdfsdk/cpdfsdk_annotiterator.cpp:151-184 | The column loop ends on every input and the result is a permutation. |
| TabOrderTheorems.ColumnLeaderIs | fpdfsdk/cpdfsdk_annotiterator.cpp:157-169 | Who leads a column, for every input: the last of the leftmost before the first negative left edge, or index 0. |
| TabOrderTheorems.ColumnLeaderLeftmostIff | fpdfsdk/cpdfsdk_annotiterator.cpp:157-169 | The leader is leftmost if and only if the first annotation is, or no left edge is negative and the very last annotation is not leftmost. |
| TabOrderTheorems.LeaderNotLeftmost | fpdfsdk/cpdfsdk_annotiterator.cpp:157-169 | Two annotations of which the right one leads. |
| TabOrderTheorems.NextAndPrevious | fpdfsdk/cpdfsdk_annotiterator.cpp:53-68 | On a list without duplicates next and previous undo each other. |
| TabOrderTheorems.TabOrderMeetsEachOnce | fpdfsdk/cpdfsdk_annotiterator.cpp:45-68 | A tab order that ends, walked from its first annotation, meets each collected annotation exactly once. |
| Focus.FormFillEnvironment.SetFocusAnnot | fpdfsdk/cpdfsdk_formfillenvironment.cpp:746-783 | The method, its handlers re-entering at will, does what the specification does, and keeps the invariant. |
| Focus.FormFillEnvironment.KillFocusAnnot | fpdfsdk/cpdfsdk_formfillenvironment.cpp:785-811 | The same for taking the focus away, with refusal and destruction. |
| Focus.FormFillEnvironment.GetOrCreatePageView | fpdfsdk/cpdfsdk_formfillenvironment.cpp:624-637 | A new view is locked while its annotations load and their handlers run. |
| Focus.FormFillEnvironment.RemovePageView | fpdfsdk/cpdfsdk_formfillenvironment.cpp:694-718 | The map entry found at the start is still there, the same view, when it is erased. |
| Focus.RunKeeps | fpdfsdk/cpdfsdk_formfillenvironment.cpp:624-811 | Every run keeps the invariant; pinned views stay, annotations change no page and nothing gone comes back. |
| Focus.FocusIsLive | fpdfsdk/cpdfsdk_formfillenvironment.cpp:742-811 | In every run the focus is null or a live annotation that a view owns. |
| Focus.RemovedPageHasNoFocus | fpdfsdk/cpdfsdk_formfillenvironment.cpp:694-718 | After a removal that passes its guards the page has no view, no annotation and no focus, even if its handler refused. |
| Focus.ReentrantRemovalIsIgnored | fpdfsdk/cpdfsdk_formfillenvironment.cpp:699-705 | After any nested operations a view being loaded or removed is the same one, and removing or creating it again does nothing. |
| Focus.FocusOnlyWhereAsked | fpdfsdk/cpdfsdk_formfillenvironment.cpp:746-811 | In every run, to any depth of handlers, the focus is null, where it was, or where some operation asked for it. |
| Focus.KillOutcome | fpdfsdk/cpdfsdk_formfillenvironment.cpp:785-811 | With any nesting: a refusal leaves the focus where it was over anything the handler did, unless it destroyed the annotation; an acceptance leaves it elsewhere only where a handler asks for it; success means null. |
| Focus.RefusedChangeKeepsFocus | fpdfsdk/cpdfsdk_formfillenvironment.cpp:752-753 | A refusal inside a change of focus ends the change with the focus where it was. |
| Focus.RefusedRemovalLosesFocus | fpdfsdk/cpdfsdk_formfillenvironment.cpp:714-717 | A refusal while the page is removed ends with no focus at all. |
| Focus.SetFocusOutcome | fpdfsdk/cpdfsdk_formfillenvironment.cpp:746-783 | With any nesting: after a failure the focus is null, where it was, or where a handler within asks for it; after a success it is at the annotation, where the callback asks for it, or null. |
| Focus.AcceptedButGone | fpdfsdk/cpdfsdk_formfillenvironment.cpp:772-781 | A handler that destroys its annotation and accepts: the call succeeds with no focus, and the client is told of a null annotation. |
| Focus.NullToldIff | fpdfsdk/cpdfsdk_formfillenvironment.cpp:746-783 | When nothing nested in a call tells the client of a null annotation, the call does if and only if it succeeds in a change to an annotation that its own set-focus handler has destroyed. |
| Focus.CarefulTellsNoNull | fpdfsdk/cpdfsdk_formfillenvironment.cpp:624-811 | In no run is the client told of a null annotation, if each accepting set-focus handler, at any depth, neither destroys its annotation nor removes a page. |
| Focus.SilentFocusChangeIff | fpdfsdk/cpdfsdk_formfillenvironment.cpp:746-811 | With handlers that only answer: exactly when the call succeeds, a target that is gone counting as null, and the state left when it does not. |
| Focus.ClientIsCalledBack | fpdfsdk/cpdfsdk_formfillenvironment.cpp:746-811 | Whatever the client does then, it is called back after an accepted kill for text and combo fields only, and after an accepted focus in a valid view. |
| Focus.CreatedPageHolds | fpdfsdk/cpdfsdk_pageview.cpp:582-629 | A page loaded with handlers that do nothing: a new view, unlocked and not yet valid, with one new annotation for each load and all others as they were. |
| Focus.ValidityDecides | fpdfsdk/cpdfsdk_formfillenvironment.cpp:756-757 | From no focus, an annotation can get it if and only if its view has been made valid. |
| MouseCapture.PageView.OnMouseMove | fpdfsdk/cpdfsdk_pageview.cpp:429-458 | The method, its handlers moving the mouse again and destroying annotations or the view at will, does what the specification does. |
| MouseCapture.PageView.ExitWidget | fpdfsdk/cpdfsdk_pageview.cpp:468-485 | Leaving: the callback only when asked for, the capture reset unless the view is gone. |
| MouseCapture.CallbacksBracket | fpdfsdk/cpdfsdk_pageview.cpp:429-485 | In every run in which only move handlers move the mouse, to any depth, enters and exits bracket, and moves and exits go only to the live annotation that is entered. |
| MouseCapture.ExitKeepsIff | fpdfsdk/cpdfsdk_pageview.cpp:468-485 | An exit callback keeps the brackets if and only if its handler leaves nothing entered or closes the view. |
| MouseCapture.EnterKeepsIff | fpdfsdk/cpdfsdk_pageview.cpp:444-466 | An enter callback keeps them if and only if its handler leaves its annotation entered, or nothing when that is gone, or closes the view. |
| MouseCapture.SafeForeverIff | fpdfsdk/cpdfsdk_pageview.cpp:429-485 | After any run, whatever its handlers did, the brackets hold on every continuation if and only if the view's capture is what has been entered and not exited. |
| MouseCapture.MoveInEnterBreaks | fpdfsdk/cpdfsdk_pageview.cpp:444-456 | An enter handler that moves the mouse elsewhere: a move callback goes to an annotation that has been exited. |
| MouseCapture.MoveInExitBreaks | fpdfsdk/cpdfsdk_pageview.cpp:468-485 | An exit handler that does: an annotation is entered twice. |
| MouseCapture.QuietMoveCalls | fpdfsdk/cpdfsdk_pageview.cpp:429-485 | With handlers that do nothing: exactly which callbacks a mouse move makes, whatever the view believes. |
| MouseCapture.HandledMeans | fpdfsdk/cpdfsdk_pageview.cpp:429-458 | The result of a move, whatever its handlers do: true only onto a live annotation, and false there only when that or the view is gone. |
| MouseCapture.QuietHandledIff | fpdfsdk/cpdfsdk_pageview.cpp:429-458 | With handlers that do nothing: true if and only if onto a live annotation. |
| MouseCapture.ClosingWhileEnteringIsUnhandled | fpdfsdk/cpdfsdk_pageview.cpp:444-457 | Closing the view while entering gives false; destroying just the annotation, or closing the view while moving, does not. |
| PageRange.ParsePageRangeString | fpdfsdk/cpdfsdk_helpers.cpp:455-491 | Alphabet test, stripping, splitting and the two loops give the specified list; the empty list on failure. |
| PageRange.ParsesIff | fpdfsdk/cpdfsdk_helpers.cpp:455-491 | Indices come out if and only if the text without spaces spells ranges within the count, and they are the indices of those ranges. |
| PageRange.ParsesWhatIsPrinted | fpdfsdk/cpdfsdk_helpers.cpp:455-491 | Printed ranges, spaces put in anywhere, parse to their page indices. |
| PageRange.ParsesOnePage | fpdfsdk/cpdfsdk_helpers.cpp:469-474 | One numeral p: the index p - 1 if and only if there is such a page. |
| PageRange.ParsesSpan | fpdfsdk/cpdfsdk_helpers.cpp:475-485 | a-b: the b - a + 1 indices from a - 1 on. |
| PageRange.ParsesJoined | fpdfsdk/cpdfsdk_helpers.cpp:466-490 | Two texts with a comma parse if and only if both do, to the indices of the one and then of the other. |
| PageRange.IndexGivenIff | fpdfsdk/cpdfsdk_helpers.cpp:455-491 | An index is given if and only if its page lies in a range that the text spells. |
| PageRange.SpacesDoNotMatter | fpdfsdk/cpdfsdk_helpers.cpp:463-464 | A space anywhere changes nothing. |
| PageRange.UndefinedHasBigNumeral | fpdfsdk/cpdfsdk_helpers.cpp:467-482 | The outcome is undefined only for a text with a numeral beyond `INT_MAX`. |
| PageRange.IndicesInRange | fpdfsdk/cpdfsdk_helpers.cpp:471-487 | Every index is below the count. |
| PageRange.SplitJoin | core/fxcrt/fx_string.h:34-48 | Parts without the separator, joined and split again, are the parts. |
| AnnotIteration.AnnotIteration.constructor | fpdfsdk/cpdfsdk_annotiteration.cpp:15-38 | Sort, find, erase, insert and reverse give the iteration. |
| AnnotIteration.StableIsArranged | fpdfsdk/cpdfsdk_annotiteration.cpp:19-22 | There is only one stable arrangement by layout order. |
| AnnotIteration.IterationKeepsAll | fpdfsdk/cpdfsdk_annotiteration.cpp:15-38 | The iteration is a permutation of the view's annotations. |
| AnnotIteration.OthersStaySorted | fpdfsdk/cpdfsdk_annotiteration.cpp:24-31 | The annotation with the focus comes first and the others follow in their stable order. |
| AnnotIteration.KindsInOrder | fpdfsdk/cpdfsdk_annotiteration.cpp:19-31 | Pop-ups before widgets before all others, but for the annotation with the focus, which is first. |
| AnnotIteration.GetFXWidgetAtPoint | fpdfsdk/cpdfsdk_pageview.cpp:104-120 | The first widget of the iteration that answers for the point. |
| AnnotIteration.GetFXAnnotAtPoint | fpdfsdk/cpdfsdk_pageview.cpp:91-102 | The first annotation of the iteration that is no pop-up and contains the point. |
| AnnotIteration.DrawOrder | fpdfsdk/cpdfsdk_pageview.cpp:84-88 | Drawing goes through the reversed iteration, from the last annotation to the first. |
| AnnotIteration.HitIsPaintedLast | fpdfsdk/cpdfsdk_pageview.cpp:83-120 | The annotation hit is the one painted last of all that answer, and none is hit if and only if none answers. |
| AnnotIteration.HitIsOnTop | fpdfsdk/cpdfsdk_pageview.cpp:83-120 | Told by the kinds: the widget hit is the last drawn of the widgets that are hit, the annotation hit the last drawn that is no pop-up and contains the point. |

## Left out

- CMapText.WriteCMap: the stream is a sequence of words; joining them with spaces and line ends, and the lexer that
  takes them apart, are not modelled.
- CMapRoundTrip.LoadsStream: the reader's base CID map and the order of equal keys in its reverse search are not
  modelled; a stored multi-character value is looked up as the first one stored for its code.
- GlyphWidths.EncodeWidths: the simple-font `Widths` loop is left out, as it only copies one width per code.
- EditStream.GetEditAppStream: string escaping and number formatting are not modelled; operands are values.
- AppStreams.GetBorderAppStreamInternal: circular borders and the check box and radio button drawings are fixed
  shapes without an invariant worth stating.
- AppStreams.SetAsListBox: a negative top visible index is not modelled, and the vertical offset of each option is part
  of its given text operators.
- PushButtons.GetPushButtonAppStream: the layout that decides on icon and label and where each is placed is a parameter,
  and the cut at a NUL byte is told to the operator, not to the byte within it.
- FlattenForm.DrawAnnotations: a dangling reference as the first appearance state is not modelled, nor are the Type
  and Subtype entries that `fpdfsdk/fpdf_flatten.cpp:393-397` writes into each appearance's dictionary.
- FlattenForm.DrawnFrame: says nothing of those two entries, which older appearances gain.
- Flatten.FlattenedPageShows: clipping by the form's box and inherited resources are not modelled.
- FlattenForm.Fit: a scale divided by zero gives infinite or undefined numbers; the model has one value for a
  transformation that is not finite, and no rounding.
- Flatten.FlattenPage: page boxes (crop and media box), clipping by the form's box, inherited resources and the null
  document are not modelled; page resources are those of the page's own dictionary.
- PageContents.SetPageContents: references to object numbers that were never given out, and content streams that end
  inside a token, a comment or an inline image are not modelled.
- GraphicsState.Step: text and path state are not part of the graphics state here.
- Bookmarks.Finder.FindBookmark: the comparison of titles is the given set of matching items.
- Actions.ActionHandler.ExecuteDocumentAction: the graph of actions stays fixed during a run, and what a script does
  is seen only in whether the field is still valid.
- TabOrder.AnnotIterator.GenerateResults: the row loop that never ends is a result that says so.
- Focus.FormFillEnvironment.RemovePageView: callbacks while the view's annotations are released, and the destruction
  of the environment itself, are not modelled.
- Focus.FormFillEnvironment.SetFocusAnnot: what the client callback does with a null annotation is undefined; the model
  records that it was told of one and goes on.
- GraphicsState.KeepsMeaningDippingIff: states the question over the content after the unanswered Q; the condition that
  can be checked there is that of KeptBeforeAnyTailIff.
- ContentGrammar.Run: the grammar is that of figure 9 of ISO 32000-1; the scoped opener and closer of
  `fpdfsdk/cpdfsdk_appstream.cpp:86-107` appears as the bracketing of each builder.
- AnnotIteration.DrawOrder: the view and the focus stay fixed during one iteration.
- PageRange.ParsePageRangeString: a numeral beyond `INT_MAX` has no defined value and ends the parse with an outcome of
  its own.
- XFA branches, rendering, fonts and FreeType, JavaScript calls, timers, file access and the API wrappers around
  handles are not modelled.
- The interactive form and widget classes rest on code outside this layer and are not modelled.
