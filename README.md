# TheBridge backend: answer resolution, document chunking and account flows in Dafny

This project models the core of the TheBridge backend, a question-answering service for the
superyacht industry, and proves properties of it. Four Python files are modelled:

- **chat.py** (module `Chat`). `get_answer` answers a question from the first of four tiers that
  hits:
  - a partner Q&A match;
  - partner document chunks grouped per partner;
  - a domain keyword test that returns a fixed "no answer" text;
  - a general language-model call with the chat's memory, plus an optional title call.

  Also modelled: the helpers `normalize`, `get_chat_history`, the message list of `ask_ai_only`,
  the `user_type` choice of `track_click`, and the name fallback of `get_user_name_by_email`.
  Every external result is an input, gathered in a `Backend` value: the vector-store rows, the
  badge labels, the stored messages and the model replies. A `Call` trace records, in order, the
  searches, lookups and model calls that `get_answer` makes.
- **ingest_pdf.py** (module `IngestPdf`). `clean_text` is modelled as the left-to-right scans that
  its three regular-expression substitutions perform. `smart_chunk` is modelled with:
  - its heading split;
  - its paragraph loop, which packs paragraphs under a budget and carries an overlap tail into the
    next chunk after each flush;
  - its final length filter.
- **untitled.py** (module `FixedChunks`). The fixed-width `chunk_text` loop, and the
  `len(chunk.strip()) < 40` skip before embedding.
- **main.py** (module `Auth`). The endpoints `signup`, `verify`, `reset_request`, `reset_verify`
  and `reset_confirm` act on:
  - the pending verifications;
  - the password resets;
  - the account list;
  - the profiles.

  They are modelled twice. Once as functions from tables to tables, which the lemmas are about.
  Once as the methods of the class `AuthStore`, which update the tables in place and are proved
  to agree with those functions. `get_user_by_email` is a first-match linear search.

The support modules are:
- `Wrappers`: `Option`.
- `Seqs`: filter, join, concatenation, Python's `s[:n]` and `s[-k:]`.
- `Text`: `str.strip`, `lower`, `capitalize`, `split`, substring `in` and `string.punctuation`, on
  ASCII text. It also holds `email.lower().strip()`, the form in which every email is stored and
  looked up.

Three behaviours of the code that the model keeps as written:
- The first two tiers return the tags `db_semantic` (chat.py:284) and `db_semantic_multi`
  (chat.py:330).
- A failed model call keeps the `openai_general` tag (chat.py:448) and returns the fixed error
  text.
- `reset_confirm` does not check the code (see Findings).

## Model

| member | source | states |
|---|---|---|
| `Chat.Normalize` | chat.py:95-98 | the normalized text has no `string.punctuation` character and no capital letter, and is never longer than the input |
| `Chat.NormalizeNotIdempotent` | chat.py:95-98 | for any punctuation mark `p` and plain letter `c`, normalize turns `p + " " + c` into `" " + c` and normalizing again gives `c` (as with `"! a"`): stripping runs before punctuation is deleted, so normalize is not idempotent |
| `Chat.NormalizeOfClean` | chat.py:95-98 | on text with no surrounding whitespace and no capitals, normalize only deletes punctuation |
| `Chat.NormalizeStableWhenTrimmed` | chat.py:95-98 | a normalized text without whitespace at its ends normalizes to itself |
| `Chat.AnyOccursIff` | chat.py:345 | trying the keywords in order finds one exactly when some keyword occurs at some index |
| `Chat.MentionsDomainIff` | chat.py:339-345 | the keyword tier fires exactly when one of the 17 keywords is a substring of the normalized text |
| `Chat.ClassicMentionsClass` | chat.py:339-345 | the test is substring matching: "classic" fires through "class" |
| `Chat.GetChatHistory` | chat.py:223-252 | the result is the suffix of the id-ordered user/assistant rows cut by `[-limit:]`: only those roles, at most `limit` rows when `limit > 0`, all of them when `limit == 0`, and `[]` when the read raises or finds nothing |
| `Chat.HistoryKeepsMostRecent` | chat.py:247-248 | with more rows than the limit the memory is the last `limit` rows, oldest first |
| `Chat.PartnerOrder` | chat.py:301-305 | the group keys are the partner ids of the rows, each exactly once |
| `Chat.GroupByPartner` | chat.py:301-305 | the `setdefault(...).append` loop yields the keys in first-appearance order and, for each, that partner's chunks in row order |
| `Chat.EarlierGroupSeenFirst` | chat.py:301-309 | any row of a later group is preceded by a row of every earlier group |
| `Chat.CombinedFirstTwo` | chat.py:320 | a combined answer is the first chunk, or the first two chunks joined by one space |
| `Chat.FormatPartnerAnswers` | chat.py:307-325 | the loop makes one lookup per group in key order and one answer per group whose lookup has data |
| `Chat.FormatGroupsAreLabelledKeys` | chat.py:309-325 | there is exactly one answer per labelled key, in key order, carrying the label and the combined chunks; unlabelled keys are skipped and the rest kept |
| `Chat.DocumentAnswersAreLabelledPartners` | chat.py:299-325 | the document tier answers each labelled partner once, in first-appearance order, with its first one or two chunks |
| `Chat.DocumentAnswersEmptyIff` | chat.py:317-334 | the document tier finds nothing, and control falls through, exactly when no matched partner has a label |
| `Chat.ModelMessagesShape` | chat.py:358-393 | the model's message list is the system message, then at most 15 history messages of role user or assistant, then the user's text; its length is the history length plus two |
| `Chat.DocumentTier` | chat.py:293-334 | one chunk search, then one partner lookup per group, no model call, and the answers of `DocumentAnswers` |
| `Chat.TitleStep` | chat.py:412-444 | a title is asked for exactly when the chat id is truthy and the reloaded memory has at most one message; it is set only when that call succeeds |
| `Chat.GeneralTier` | chat.py:358-406 | the answer is the stripped reply, or the fixed error text when the call raised; the first model call gets the assembled messages; a title call follows only on a first exchange |
| `Chat.GetAnswer` | chat.py:255-452 | the tiers in order, each consulted only when the earlier ones missed. A Q&A hit returns its answer as `db_semantic` with the three follow-ups and no further call. A document hit returns the grouped answers as `db_semantic_multi`. A keyword hit returns the fixed no-answer text, gated for guests. Otherwise the result is `openai_general` with no actions, the model calls as above, and a title only when wanted and obtained |
| `Chat.TitleOutcomeLeavesAnswer` | chat.py:408-452 | whatever the title call returns, answer, source, actions and the auth gate are the same |
| `Chat.AskAiOnly` | chat.py:171-216 | ask_ai_only sends the system message, the memory when the chat id is truthy, then the question; the reply is stripped |
| `Chat.ClickRow` | chat.py:466-486 | `user_type` is "guest" exactly for the guest role and "user" otherwise; the other fields are copied |
| `Chat.FallbackName` | chat.py:48 | the fallback name is the part before the first "@", with the same length and the same letters up to case, its first letter not lower-case and the rest not upper-case |
| `Chat.UserName` | chat.py:35-48 | a non-empty stored name under the canonical email is returned. The name is empty exactly when there is no such name and the address has nothing before its first "@". A fallback name has no "@" and the letters of that part up to case |
| `Text.Strip` | ingest_pdf.py:84 | `strip` returns the slice of the input without whitespace at either end, and only whitespace is removed |
| `Text.ContainsIff` | chat.py:345 | Python's `k in s` holds exactly when `k` occurs at some index of `s` |
| `Text.SplitOnRoundTrip` | ingest_pdf.py:80 | joining the pieces of `split(sep)` with `sep` gives the string back |
| `Text.FirstPieceBefore` | chat.py:48 | the first piece of `split("@")` is the prefix before the first "@", or the whole string |
| `Text.Capitalize` | chat.py:48 | `capitalize` keeps the length and the letters up to case: the first is not lower-case, the rest are not upper-case |
| `Text.CanonicalEmailIdempotent` | main.py:312 | `lower().strip()` applied to a canonical email changes nothing |
| `IngestPdf.CrToNewline` | ingest_pdf.py:56 | the length is kept and no carriage return is left; each one became a newline, and every other character is unchanged |
| `IngestPdf.RunLastNewline` | ingest_pdf.py:57 | the greedy `\n\s*\n+` ends at the last newline of the whitespace run |
| `IngestPdf.CollapseBlankLines` | ingest_pdf.py:57 | the substitution only introduces newlines |
| `IngestPdf.SquashBlanks` | ingest_pdf.py:58 | the substitution leaves no tab and no two spaces in a row, and starts with a space exactly when the input starts with a space or tab |
| `IngestPdf.CollapseFewNewlines` | ingest_pdf.py:57 | after the substitution no whitespace run holds more than two newlines |
| `IngestPdf.SquashFewNewlines` | ingest_pdf.py:58 | squashing spaces and tabs keeps the newline count of every run |
| `IngestPdf.StripFewNewlines` | ingest_pdf.py:59 | stripping keeps that bound |
| `IngestPdf.CollapseKeepsOut` | ingest_pdf.py:57 | characters other than newline that are absent stay absent |
| `IngestPdf.SquashKeepsOut` | ingest_pdf.py:58 | characters other than space that are absent stay absent, and no tab remains |
| `IngestPdf.StripKeepsOut` | ingest_pdf.py:59 | stripping adds no character |
| `IngestPdf.CleanTextNoCrOrTab` | ingest_pdf.py:55-59 | clean_text's output has no carriage return and no tab |
| `IngestPdf.CleanTextNoDoubleSpace` | ingest_pdf.py:55-59 | clean_text's output never has two spaces in a row |
| `IngestPdf.CleanTextFewNewlines` | ingest_pdf.py:55-59 | no whitespace run of the output holds more than two newlines |
| `IngestPdf.CleanTextNoTripleNewline` | ingest_pdf.py:55-59 | the output never has three newlines in a row |
| `IngestPdf.CleanTextShape` | ingest_pdf.py:55-59 | the output has no CR, no tab, no double space, no whitespace at its ends and no triple newline |
| `IngestPdf.CrToNewlineKeepsVisible` | ingest_pdf.py:56 | the non-whitespace characters are unchanged |
| `IngestPdf.CollapseKeepsVisible` | ingest_pdf.py:57 | the non-whitespace characters are unchanged |
| `IngestPdf.SquashKeepsVisible` | ingest_pdf.py:58 | the non-whitespace characters are unchanged |
| `IngestPdf.StripKeepsVisible` | ingest_pdf.py:59 | the non-whitespace characters are unchanged |
| `IngestPdf.CleanTextKeepsVisible` | ingest_pdf.py:55-59 | clean_text changes whitespace only: the other characters come out unchanged and in order |
| `IngestPdf.Sections` | ingest_pdf.py:75 | the heading split yields at least one section |
| `IngestPdf.SectionsRoundTrip` | ingest_pdf.py:75 | joining the sections with newlines gives the text back: only the newline before each heading is removed |
| `IngestPdf.SectionsStartWithHeadings` | ingest_pdf.py:75 | every section after the first starts with a capital letter |
| `IngestPdf.AddParagraph` | ingest_pdf.py:83-95 | one pass of the paragraph loop is one step of the packing function |
| `IngestPdf.FinishSection` | ingest_pdf.py:97-98 | after the last paragraph, the stripped rest, unless empty, completes the section's chunks |
| `IngestPdf.PackSection` | ingest_pdf.py:80-98 | the loop over a section's paragraphs appends exactly that section's chunks |
| `IngestPdf.SmartChunk` | ingest_pdf.py:66-103 | smart_chunk returns the chunks of all sections in section order, filtered to those longer than 200 characters |
| `IngestPdf.PackIgnoresBlank` | ingest_pdf.py:84-86 | packing with the blank paragraphs removed gives the same state: they never start or extend a chunk |
| `IngestPdf.AppendStaysUnderBudget` | ingest_pdf.py:88-89 | a step that emits nothing appends the paragraph and two newlines and leaves `current_chunk` shorter than `max_chars + 2` |
| `IngestPdf.FlushCarriesOverlap` | ingest_pdf.py:91-95 | a step that emits a chunk emits the stripped old `current_chunk` and restarts from its last `overlap` characters, or from nothing when it was not longer than `overlap` |
| `IngestPdf.LongFirstParagraphFlushesEmpty` | ingest_pdf.py:88-95 | a first paragraph that alone reaches the budget flushes an empty chunk, which the final filter removes |
| `IngestPdf.ZeroOverlapRepeatsChunk` | ingest_pdf.py:94 | with `overlap == 0` the whole flushed chunk is carried over, because `s[-0:]` is all of `s` |
| `IngestPdf.StepHoldsParagraph` | ingest_pdf.py:88-95 | the paragraph a step takes is inside the new `current_chunk` |
| `IngestPdf.StepKeepsCovered` | ingest_pdf.py:88-95 | a step never loses text already packed |
| `IngestPdf.PackCovers` | ingest_pdf.py:83-95 | every non-blank paragraph packed so far, stripped, is in an emitted chunk or in `current_chunk` |
| `IngestPdf.EndCovered` | ingest_pdf.py:97-98 | what is packed at the end of a section is in one of its chunks |
| `IngestPdf.ParagraphInSection` | ingest_pdf.py:79-98 | each non-blank paragraph of a section, stripped, occurs in one of its chunks |
| `IngestPdf.SectionKeepsParagraphs` | ingest_pdf.py:79-98 | no paragraph of a section is lost |
| `IngestPdf.ChunksGrow` | ingest_pdf.py:83-95 | packing more paragraphs never rewrites a chunk already emitted: the earlier chunks are a prefix of the later ones |
| `IngestPdf.StaysInSlot` | ingest_pdf.py:83-95 | text with visible ends that is in the chunk at position `n` stays there whatever paragraphs follow: in `current_chunk` while only `n` chunks are emitted, then in the `n`-th emitted chunk |
| `IngestPdf.PackedInOrder` | ingest_pdf.py:80-98 | each non-blank paragraph, stripped, is in the chunk at its slot, and a later paragraph never has an earlier slot |
| `IngestPdf.ParagraphsInChunkOrder` | ingest_pdf.py:79-98 | within a section the chunks follow paragraph order: a later paragraph never lands in an earlier chunk |
| `IngestPdf.ChunksComeFromSections` | ingest_pdf.py:79-98 | a chunk is in the output exactly when it is a chunk of one section: `current_chunk` restarts per section, so no chunk mixes two |
| `IngestPdf.LongParagraphsSurvive` | ingest_pdf.py:66-103 | a paragraph longer than 200 characters once stripped always reaches the output, inside some chunk |
| `FixedChunks.ChunkText` | untitled.py:46-53 | the while loop returns the consecutive `size`-wide slices of the text |
| `FixedChunks.ChunksRoundTrip` | untitled.py:46-53 | the chunks laid end to end give back the text |
| `FixedChunks.ChunkSizes` | untitled.py:50-51 | every chunk is non-empty and at most `size` long, and all but the last are exactly `size` long |
| `FixedChunks.ChunkCount` | untitled.py:48-52 | there are `ceil(len(text)/size)` chunks, none for the empty text |
| `FixedChunks.EmbeddedChunksExact` | untitled.py:60-63 | a chunk is embedded as often as it occurs when it has at least 40 characters once stripped, never otherwise; the kept ones stay in order |
| `FixedChunks.BlankChunkSkipped` | untitled.py:62-63 | a whitespace-only chunk is never embedded |
| `Auth.FindUser` | main.py:44-49 | the first account in list order whose email equals the argument exactly, or none when no account has it |
| `Auth.AuthStore.GetUserByEmail` | main.py:44-49 | the linear search returns that first match |
| `Auth.FoundIsOnlyAccount` | main.py:44-49 | on consistent tables the account found is the only one with that email |
| `Auth.ConfirmEmail` | main.py:369-374 | every account keeps its id, email and password; an account is confirmed afterwards exactly when it was before or has the id |
| `Auth.SetPassword` | main.py:494-500 | every account keeps its id and email; the accounts with the id get the new password and are confirmed, and every other account is unchanged |
| `Auth.SignupReplacesPending` | main.py:311-334 | signup stores under the canonical email the name, password, code and an expiry five minutes on; it replaces an earlier record for that email and changes nothing else |
| `Auth.AuthStore.Signup` | main.py:311-334 | the in-place signup leaves the tables its step function gives, and keeps the store consistent |
| `Auth.VerifyGuards` | main.py:337-356 | verify succeeds exactly when a record is pending, unexpired (strict `<`) and its code equals the stripped code. Each of the three guards, in order, gives its own 400 message, and every failure leaves all tables unchanged |
| `Auth.VerifyConfirmsExisting` | main.py:358-398 | on success for an existing account only the pending record of the email is deleted, the account is only confirmed and keeps its password, and only its profile is written, with the stored name; resets and `nextId` are unchanged |
| `Auth.VerifyCreatesAccount` | main.py:358-398 | on success with no account only the pending record of the email is deleted, one account is appended, confirmed, with the stored password and the next id, and only its profile is written, with the stored name; resets are unchanged |
| `Auth.AuthStore.Verify` | main.py:337-398 | the in-place verify gives the step function's outcome and tables, and keeps the store consistent |
| `Auth.VerifyLeavesOneConfirmedAccount` | main.py:364-382 | on consistent tables a successful verify leaves exactly one account with the email, and it is confirmed |
| `Auth.ResetRequestEffects` | main.py:415-443 | 404 with no change exactly when no account has the email; otherwise only the reset for the email is replaced, with an expiry five minutes on |
| `Auth.AuthStore.ResetRequest` | main.py:415-443 | the in-place reset_request gives the step function's outcome and tables, and keeps the store consistent |
| `Auth.ResetVerifyAccepts` | main.py:447-466 | reset_verify accepts exactly an unexpired reset under the lower-cased, unstripped email with the unstripped code |
| `Auth.ResetVerifyMissesPaddedEmail` | main.py:447-455 | for any lower-case email `e` with visible ends, a reset requested for `e + " "` is stored under `e` and a verify of `e + " "` finds no reset (as with "a@x ") |
| `Auth.AuthStore.ResetVerify` | main.py:447-466 | reset_verify changes nothing and returns the outcome of its function |
| `Auth.ResetConfirmEffects` | main.py:471-508 | reset_confirm succeeds exactly when an unexpired reset exists and the account exists. A missing reset and an expired one give their 400 messages, an unknown account gives 404, and every failure keeps all tables. Success sets the password and deletes only that reset; verifications, profiles and `nextId` are kept |
| `Auth.ResetConfirmTouchesOnlyOwner` | main.py:490-500 | on consistent tables reset_confirm leaves every account with another email unchanged |
| `Auth.ResetWithoutCode` | main.py:471-508 | anyone who names a registered email can request a reset and confirm a password of their choice without the mailed code |
| `Auth.AuthStore.ResetConfirm` | main.py:471-508 | the in-place reset_confirm, as written, gives the step function's outcome and tables, and keeps the store consistent |
| `Auth.CheckedResetNeedsCode` | main.py:471-508 | the corrected confirm changes a password only when the mailed code of an unexpired reset is given, and otherwise changes nothing |
| `Auth.AuthStore.ResetConfirmChecked` | main.py:471-508 | the in-place corrected confirm gives its step function's outcome and tables, and keeps the store consistent |
| `Auth.SignupPreservesValid` | main.py:311-334 | signup keeps emails and ids of accounts unique |
| `Auth.VerifyPreservesValid` | main.py:364-382 | verify never creates a second account for an email that has one, and gives a new account a fresh id |
| `Auth.ResetRequestPreservesValid` | main.py:415-443 | reset_request keeps the accounts consistent |
| `Auth.ResetConfirmPreservesValid` | main.py:471-508 | reset_confirm keeps emails and ids unique |

## Left out

- Supabase, the OpenAI embeddings and completions, and email sending are not modelled. Their results are inputs: the `Backend` value, the profiles map, the code and the time. `send_email`, `send_help_request`, `get_experts_by_role`, `save_message` and the FastAPI routes are left out.
- The similarity thresholds and match counts (0.75, one Q&A row; 0.72, eight chunk rows) are evaluated inside the remote searches, so their rows are inputs.
- Wall-clock time and `secrets.token_hex(3)` are parameters: integer seconds and a code string.
- `str.lower`, `capitalize`, `strip`, `isspace` and the regex classes `\s` and `\d` are modelled on ASCII. Unicode case mapping and Unicode whitespace are not modelled.
- The prompt texts are abbreviated constants; their wording is not modelled.
- The title save (`user_chats.update`) is recorded as a call that cannot fail: its failure path is left out.
- In the client library, `.single()` may raise when no row matches rather than return empty data. The model treats a missing row as the "no data" branch: the partner lookup, the profile lookup, reset_verify and reset_confirm.
- The verification row read by verify is the only row for the email, because signup upserts by email. The `resp.data[0]` choice among several rows is not modelled.
- `Auth.FindUser`, `Auth.AuthStore.GetUserByEmail`, `Auth.ResetRequestEffects`, `Auth.VerifyConfirmsExisting` and `Auth.VerifyCreatesAccount`: the account list `users` stands for what the admin listing `list_users()` returns. If the client library returns only one page of accounts, an account beyond it is not found: reset_request would answer 404 and verify would try to create a second account. Paging is not modelled.
- Account ids are allocated by a counter (`nextId`) rather than by the authentication service.
- Confirmation is a flag. The `email_confirmed_at` timestamp that reset_confirm writes is not modelled.
- The `login` endpoint and the chat-list, help and expert endpoints of main.py are not modelled: they are queries with no logic of their own.
- main.py's own copy of `get_user_name_by_email` is used only for the text of the reset email, so it is left out; chat.py's copy is modelled.
- The top-level scripts of ingest_pdf.py and untitled.py are left out: PDF extraction, document inserts, and the embed-and-insert loops other than the skip test. embedding.py and script.py are not part of this model.
- `FixedChunks.ChunkText` requires `size > 0` unless the text is empty, because the Python loop never ends otherwise.

## Findings

| source | as written | input that shows it | evidently intended | confidence | as-written member | corrected member |
|---|---|---|---|---|---|---|
| main.py:471-508 | reset_confirm checks only that a reset row exists for the email and has not expired, then sets the new password; the code sent by email is never compared, and reset_verify records nothing | `reset_request("owner@x")` followed at once by `reset_confirm("owner@x", "chosen")`, without the mailed code, returns `password_updated` | the password changes only for a caller who presents the mailed code (the error text "Reset not verified" says as much) | not executed; high for the as-written behaviour, medium for the intended fix | `Auth.ResetWithoutCode` | `Auth.CheckedResetNeedsCode` |
