/** The answer-resolution logic of chat.py. Every call to the vector store, the partners table,
    chat_messages and the language model is replaced by its outcome, gathered in a `Backend`
    value, so that what remains (tier order, grouping, message assembly) is checked here. */
module Chat {
  import opened Wrappers
  import opened Seqs
  import opened Text

  type PartnerId = string

  /** A chat_messages row (role, content), and also one entry of the message list sent to the model. */
  datatype Message = Message(role: string, content: string)

  /** A row returned by the `match_partner_qa` similarity search. */
  datatype QaMatch = QaMatch(answer: string)

  /** A row returned by the `match_partner_chunks` similarity search, in rank order. */
  datatype ChunkMatch = ChunkMatch(partnerId: PartnerId, content: string)

  /** One entry of `formatted_answers`. */
  datatype PartnerAnswer = PartnerAnswer(partnerName: string, answer: string)

  /** The answer is either one text (key "answer") or a list of partner answers (key "answers"). */
  datatype Reply = Answer(text: string) | Answers(items: seq<PartnerAnswer>)

  datatype Source = DbSemantic | DbSemanticMulti | NoAnswer | OpenAiGeneral

  datatype Action = AskAi | AskSpecialist | AskAmbassador

  datatype AnswerResult = AnswerResult(
    reply: Reply,
    source: Source,
    actions: seq<Action>,
    requiresAuth: bool,
    newTitle: Option<string>)

  /** What each external call made by get_answer gives back. */
  datatype Backend = Backend(
    qaMatches: seq<QaMatch>,              // [] also when the embedding or the search raised
    chunkMatches: seq<ChunkMatch>,        // [] also when the search raised
    badgeLabels: map<PartnerId, string>,  // partners.badge_label; a missing id is a lookup without data
    history: Option<seq<Message>>,        // chat_messages of the chat in id order; None when the read raised
    completion: Option<string>,           // the model's reply; None when the call raised
    reloadedHistory: Option<seq<Message>>, // the second read of chat_messages, made for the title decision
    titleCompletion: Option<string>)      // the title model call; None when it raised

  /** An external call, recorded in the order get_answer makes it. */
  datatype Call =
    | QaSearch(query: string)
    | ChunkSearch(query: string)
    | PartnerLookup(id: PartnerId)
    | HistoryLoad(chatId: int)
    | Completion(messages: seq<Message>, temperature: real)
    | TitleSave(chatId: int, title: string)

  datatype ClickEvent = ClickEvent(
    chatId: Option<int>,
    userEmail: Option<string>,
    userType: string,
    button: string,
    question: string)

  const NO_ANSWER_FALLBACK: string :=
    "Oops! You caught us.\nWe don't have the answer just yet, but TheBridge is always growing.\n"
    + "Try Ask AI, Ask a Specialist or Ask an Ambassador."

  const AI_ERROR_TEXT: string := "\U{26A0}\U{FE0F} AI temporary error. Please try again."

  /** The continuity instruction that opens every general model call (its wording is not modelled). */
  const SYSTEM_PROMPT: string := "You are TheBridge AI \U{2014} a single cohesive conversational intelligence."

  const TITLE_PROMPT: string := "Create a short 4-6 word title summarizing this topic."

  const HISTORY_LIMIT: nat := 15

  const ANSWER_TEMPERATURE: real := 0.7

  const TITLE_TEMPERATURE: real := 0.3

  const FOLLOW_UPS: seq<Action> := [AskAi, AskSpecialist, AskAmbassador]

  const DOMAIN_KEYWORDS: seq<string> := [
    "yacht", "crew", "captain", "flag", "port state", "psc",
    "manning", "inspection", "maritime", "ism", "isps",
    "engine", "bridge", "deck", "charter", "mca", "class"
  ]

  // ---------------------------------------------------------------------------------------------
  // normalize and the keyword test
  // ---------------------------------------------------------------------------------------------

  predicate NotPunct(c: char) { !IsPunct(c) }

  /** `text.strip().lower()` with every `string.punctuation` character deleted. */
  function Normalize(text: string): (r: string)
    ensures forall i :: 0 <= i < |r| ==> !IsPunct(r[i]) && !IsUpper(r[i])
    ensures |r| <= |text|
  {
    var lowered := Lower(Strip(text));
    var r := Filter(NotPunct, lowered);
    assert forall i :: 0 <= i < |r| ==> r[i] in lowered;
    r
  }

  /** A character that normalize keeps as it is. */
  predicate Plain(c: char)
  {
    !IsSpace(c) && !IsPunct(c) && !IsUpper(c)
  }

  /** Normalizing twice can differ from normalizing once: the strip runs before the punctuation
      is deleted, so deleting a leading mark can expose a space that stays ("! a" gives " a",
      which gives "a"). */
  lemma NormalizeNotIdempotent(p: char, c: char)
    requires IsPunct(p) && Plain(c)
    ensures Normalize([p, ' ', c]) == [' ', c]
    ensures Normalize(Normalize([p, ' ', c])) == [c] != [' ', c]
  {
    NormalizeBehindMark(p, c);
    NormalizePadded(c);
  }

  lemma NormalizeBehindMark(p: char, c: char)
    requires IsPunct(p) && Plain(c)
    ensures Normalize([p, ' ', c]) == [' ', c]
  {
    var s := [p, ' ', c];
    assert s == [p] + ([' '] + [c]);
    assert forall i :: 0 <= i < |s| ==> !IsUpper(s[i]);
    NormalizeOfClean(s);
    FilterCons(NotPunct, p, [' '] + [c]);
    FilterCons(NotPunct, ' ', [c]);
    FilterCons(NotPunct, c, []);
  }

  lemma NormalizePadded(c: char)
    requires Plain(c)
    ensures Normalize([' ', c]) == [c]
  {
    StripPadded(c);
    NormalizePlain(c);
    NormalizeStrips([' ', c]);
  }

  lemma StripPadded(c: char)
    requires Plain(c)
    ensures Strip([' ', c]) == [c]
  {
    assert [' ', c] == [' '] + [c];
    StripLeadingSpace(' ', [c]);
    StripStripped([c]);
  }

  lemma NormalizePlain(c: char)
    requires Plain(c)
    ensures Normalize([c]) == [c]
  {
    NormalizeOfClean([c]);
    FilterKeepsAll(NotPunct, [c]);
  }

  /** Normalizing ignores surrounding whitespace. */
  lemma NormalizeStrips(text: string)
    ensures Normalize(text) == Normalize(Strip(text))
  {
    StripStripped(Strip(text));
  }

  /** On text without surrounding whitespace or capitals, normalizing only deletes punctuation. */
  lemma NormalizeOfClean(s: string)
    requires s == [] || (!IsSpace(s[0]) && !IsSpace(s[|s| - 1]))
    requires forall i :: 0 <= i < |s| ==> !IsUpper(s[i])
    ensures Normalize(s) == Filter(NotPunct, s)
  {
    StripStripped(s);
    LowerNoUpper(s);
  }

  /** A normalized text that does not start or end with whitespace normalizes to itself. */
  lemma NormalizeStableWhenTrimmed(text: string)
    requires var n := Normalize(text); n == [] || (!IsSpace(n[0]) && !IsSpace(n[|n| - 1]))
    ensures Normalize(Normalize(text)) == Normalize(text)
  {
    var n := Normalize(text);
    StripStripped(n);
    LowerNoUpper(n);
    FilterKeepsAll(NotPunct, n);
  }

  /** Some keyword of `keys` occurs in `s`, trying the keywords in order. */
  predicate AnyOccurs(keys: seq<string>, s: string)
  {
    |keys| > 0 && (Contains(s, keys[0]) || AnyOccurs(keys[1..], s))
  }

  /** `any(k in user_norm for k in yachting_keywords)`. */
  predicate MentionsDomain(norm: string)
  {
    AnyOccurs(DOMAIN_KEYWORDS, norm)
  }

  lemma {:induction false} AnyOccursIff(keys: seq<string>, s: string)
    ensures AnyOccurs(keys, s) <==> exists k, i: nat :: k in keys && OccursAt(s, k, i)
  {
    if |keys| > 0 {
      ContainsIff(s, keys[0]);
      AnyOccursIff(keys[1..], s);
      assert forall k :: k in keys <==> k == keys[0] || k in keys[1..];
    }
  }

  /** The keyword tier fires exactly when some keyword is a substring of the normalized text,
      whole word or not. */
  lemma MentionsDomainIff(norm: string)
    ensures MentionsDomain(norm) <==> exists k, i: nat :: k in DOMAIN_KEYWORDS && OccursAt(norm, k, i)
  {
    AnyOccursIff(DOMAIN_KEYWORDS, norm);
  }

  /** Substring matching: "class" is found inside "classic". */
  lemma ClassicMentionsClass()
    ensures MentionsDomain("classic")
  {
    assert OccursAt("classic", "class", 0);
    MentionsDomainIff("classic");
  }

  // ---------------------------------------------------------------------------------------------
  // get_chat_history
  // ---------------------------------------------------------------------------------------------

  predicate IsDialogue(m: Message)
  {
    m.role == "user" || m.role == "assistant"
  }

  /** The value of get_chat_history: no memory when the read raised or found nothing, otherwise
      the user and assistant rows in id order, cut as `history[-limit:]` cuts. */
  function HistoryView(rows: Option<seq<Message>>, limit: nat): seq<Message>
  {
    match rows
    case None => []
    case Some(data) => PyTail(Filter(IsDialogue, data), limit)
  }

  method GetChatHistory(rows: Option<seq<Message>>, limit: nat) returns (history: seq<Message>)
    ensures history == HistoryView(rows, limit)
    ensures forall i :: 0 <= i < |history| ==> IsDialogue(history[i])
    ensures limit > 0 ==> |history| <= limit
    ensures rows.None? || rows == Some([]) ==> history == []
    ensures rows.Some? ==>
      var all := Filter(IsDialogue, rows.value);
      |history| <= |all| && history == all[|all| - |history|..]
    ensures rows.Some? && limit == 0 ==> history == Filter(IsDialogue, rows.value)
  {
    if rows.None? || rows.value == [] {
      return [];
    }
    var data := rows.value;
    var kept: seq<Message> := [];
    for i := 0 to |data|
      invariant kept == Filter(IsDialogue, data[..i])
    {
      FilterConcat(IsDialogue, data[..i], [data[i]]);
      assert data[..i + 1] == data[..i] + [data[i]];
      if data[i].role == "user" || data[i].role == "assistant" {
        kept := kept + [Message(data[i].role, data[i].content)];
      }
    }
    assert data[..|data|] == data;
    history := PyTail(kept, limit);
  }

  /** With more dialogue rows than the limit, the memory is the most recent `limit` of them, oldest
      first: with 16 turns and a limit of 15, the second turn comes first. */
  lemma {:induction false} HistoryKeepsMostRecent(rows: seq<Message>, limit: nat)
    requires forall i :: 0 <= i < |rows| ==> IsDialogue(rows[i])
    requires 0 < limit < |rows|
    ensures HistoryView(Some(rows), limit) == rows[|rows| - limit..]
    ensures |rows| == limit + 1 ==> HistoryView(Some(rows), limit)[0] == rows[1]
  {
    FilterKeepsAll(IsDialogue, rows);
  }

  // ---------------------------------------------------------------------------------------------
  // The partner document tier: grouping and formatting
  // ---------------------------------------------------------------------------------------------

  /** The partner ids of `rows`, each once, in the order of their first appearance: the key order
      of the `grouped` dict. */
  function PartnerOrder(rows: seq<ChunkMatch>): (ids: seq<PartnerId>)
    ensures forall p :: p in ids <==> exists i :: 0 <= i < |rows| && rows[i].partnerId == p
    ensures forall i, j :: 0 <= i < j < |ids| ==> ids[i] != ids[j]
  {
    if rows == [] then []
    else
      var prev := PartnerOrder(rows[..|rows| - 1]);
      var p := rows[|rows| - 1].partnerId;
      assert forall i :: 0 <= i < |rows| - 1 ==> rows[..|rows| - 1][i] == rows[i];
      if p in prev then prev else prev + [p]
  }

  /** The contents of the rows of partner `p`, in row order. */
  function ChunksOf(rows: seq<ChunkMatch>, p: PartnerId): seq<string>
  {
    if rows == [] then []
    else
      ChunksOf(rows[..|rows| - 1], p)
      + (if rows[|rows| - 1].partnerId == p then [rows[|rows| - 1].content] else [])
  }

  /** The `grouped` dict of get_answer: its keys in insertion order and its lists of chunks. */
  datatype Grouped = Grouped(keys: seq<PartnerId>, chunks: map<PartnerId, seq<string>>)

  function GroupMap(rows: seq<ChunkMatch>): map<PartnerId, seq<string>>
  {
    map p | p in PartnerOrder(rows) :: ChunksOf(rows, p)
  }

  /** The loop `grouped.setdefault(pid, []).append(row["content"])`. */
  method GroupByPartner(rows: seq<ChunkMatch>) returns (g: Grouped)
    ensures g == Grouped(PartnerOrder(rows), GroupMap(rows))
  {
    var keys: seq<PartnerId> := [];
    var chunks: map<PartnerId, seq<string>> := map[];
    for i := 0 to |rows|
      invariant Grouping(rows[..i], keys, chunks)
    {
      var pid := rows[i].partnerId;
      TakeOneMore(rows, i);
      if pid !in chunks {
        GroupNewPartner(rows[..i], rows[i], keys, chunks);
        keys := keys + [pid];
        chunks := chunks[pid := [rows[i].content]];
      } else {
        GroupKnownPartner(rows[..i], rows[i], keys, chunks);
        chunks := chunks[pid := chunks[pid] + [rows[i].content]];
      }
    }
    TakeAll(rows);
    GroupedAll(rows, keys, chunks);
    g := Grouped(keys, chunks);
  }

  /** `keys` and `chunks` are the grouping of the rows `rows`. */
  ghost predicate Grouping(rows: seq<ChunkMatch>, keys: seq<PartnerId>, chunks: map<PartnerId, seq<string>>)
  {
    && keys == PartnerOrder(rows)
    && (forall p :: p in chunks <==> p in keys)
    && (forall p :: p in chunks ==> chunks[p] == ChunksOf(rows, p))
    && (forall p :: p !in chunks ==> ChunksOf(rows, p) == [])
  }

  /** A row of a partner not seen before adds the partner as the last key, with that row's
      content as its only chunk. */
  lemma GroupNewPartner(pre: seq<ChunkMatch>, x: ChunkMatch, keys: seq<PartnerId>, chunks: map<PartnerId, seq<string>>)
    requires Grouping(pre, keys, chunks) && x.partnerId !in chunks
    ensures Grouping(pre + [x], keys + [x.partnerId], chunks[x.partnerId := [x.content]])
  {
    assert (pre + [x])[..|pre|] == pre;
  }

  /** A row of a partner already seen appends that row's content to the partner's chunks. */
  lemma GroupKnownPartner(pre: seq<ChunkMatch>, x: ChunkMatch, keys: seq<PartnerId>, chunks: map<PartnerId, seq<string>>)
    requires Grouping(pre, keys, chunks) && x.partnerId in chunks
    ensures Grouping(pre + [x], keys, chunks[x.partnerId := chunks[x.partnerId] + [x.content]])
  {
    assert (pre + [x])[..|pre|] == pre;
  }

  /** The grouping of all rows is the one get_answer specifies. */
  lemma GroupedAll(rows: seq<ChunkMatch>, keys: seq<PartnerId>, chunks: map<PartnerId, seq<string>>)
    requires Grouping(rows, keys, chunks)
    ensures keys == PartnerOrder(rows) && chunks == GroupMap(rows)
  {
    assert chunks.Keys == GroupMap(rows).Keys;
  }

  /** `" ".join(chunks[:2])`. */
  function Combined(chunks: seq<string>): string
  {
    Join(" ", Take(chunks, 2))
  }

  /** A combined answer is the first chunk alone, or the first two chunks with one space between. */
  lemma CombinedFirstTwo(chunks: seq<string>)
    requires |chunks| >= 1
    ensures Combined(chunks) == if |chunks| == 1 then chunks[0] else chunks[0] + " " + chunks[1]
  {
    if |chunks| >= 2 {
      var t := Take(chunks, 2);
      assert t == [chunks[0], chunks[1]];
      assert t[1..] == [chunks[1]];
      assert Join(" ", t[1..]) == chunks[1];
      assert Join(" ", t) == chunks[0] + " " + Join(" ", t[1..]);
    }
  }

  /** `formatted_answers` for the keys `keys`: one answer per key with a badge label, in key order. */
  function FormatGroups(keys: seq<PartnerId>, chunks: map<PartnerId, seq<string>>,
                        labels: map<PartnerId, string>): seq<PartnerAnswer>
    requires forall p :: p in keys ==> p in chunks
  {
    if keys == [] then []
    else
      var prev := FormatGroups(keys[..|keys| - 1], chunks, labels);
      var p := keys[|keys| - 1];
      if p in labels then prev + [PartnerAnswer(labels[p], Combined(chunks[p]))] else prev
  }

  function Lookups(keys: seq<PartnerId>): seq<Call>
  {
    seq(|keys|, i requires 0 <= i < |keys| => PartnerLookup(keys[i]))
  }

  /** The loop over `grouped.items()`: one partner lookup per key, skipping keys without data. */
  method FormatPartnerAnswers(g: Grouped, labels: map<PartnerId, string>)
    returns (answers: seq<PartnerAnswer>, lookups: seq<Call>)
    requires forall p :: p in g.keys ==> p in g.chunks
    ensures answers == FormatGroups(g.keys, g.chunks, labels)
    ensures lookups == Lookups(g.keys)
  {
    answers, lookups := [], [];
    for i := 0 to |g.keys|
      invariant answers == FormatGroups(g.keys[..i], g.chunks, labels)
      invariant lookups == Lookups(g.keys[..i])
    {
      var partnerId := g.keys[i];
      assert g.keys[..i + 1][..i] == g.keys[..i];
      lookups := lookups + [PartnerLookup(partnerId)];
      if partnerId in labels {
        var combinedAnswer := Combined(g.chunks[partnerId]);
        answers := answers + [PartnerAnswer(labels[partnerId], combinedAnswer)];
      }
    }
    assert g.keys[..|g.keys|] == g.keys;
  }

  /** The answers of the document tier for the matched rows. */
  function DocumentAnswers(rows: seq<ChunkMatch>, labels: map<PartnerId, string>): seq<PartnerAnswer>
  {
    FormatGroups(PartnerOrder(rows), GroupMap(rows), labels)
  }

  predicate Labelled(labels: map<PartnerId, string>, p: PartnerId) { p in labels }

  /** `FormatGroups` yields, in key order, exactly one answer per labelled key. */
  lemma {:induction false} FormatGroupsAreLabelledKeys(keys: seq<PartnerId>, chunks: map<PartnerId, seq<string>>,
                                                       labels: map<PartnerId, string>)
    requires forall p :: p in keys ==> p in chunks
    ensures var ks := Filter(p => p in labels, keys);
      |FormatGroups(keys, chunks, labels)| == |ks|
      && forall k :: 0 <= k < |ks| ==>
           ks[k] in labels && ks[k] in chunks
           && FormatGroups(keys, chunks, labels)[k] == PartnerAnswer(labels[ks[k]], Combined(chunks[ks[k]]))
  {
    if keys != [] {
      var pre := keys[..|keys| - 1];
      var p := keys[|keys| - 1];
      FormatGroupsAreLabelledKeys(pre, chunks, labels);
      assert keys == pre + [p];
      FilterSnoc(p => p in labels, pre, p);
      var ks0 := Filter(p => p in labels, pre);
      var prev := FormatGroups(pre, chunks, labels);
      if p in labels {
        assert Filter(p => p in labels, keys) == ks0 + [p];
        assert FormatGroups(keys, chunks, labels) == prev + [PartnerAnswer(labels[p], Combined(chunks[p]))];
      } else {
        assert Filter(p => p in labels, keys) == ks0;
        assert FormatGroups(keys, chunks, labels) == prev;
      }
    }
  }

  /** The document tier answers every partner that has a badge label, once, in the order in which
      the partner first appears among the matched rows; each text is its first one or two chunks. */
  lemma DocumentAnswersAreLabelledPartners(rows: seq<ChunkMatch>, labels: map<PartnerId, string>)
    ensures var ks := Filter(p => p in labels, PartnerOrder(rows));
      var answers := DocumentAnswers(rows, labels);
      |answers| == |ks|
      && forall k :: 0 <= k < |ks| ==>
           ks[k] in labels && answers[k] == PartnerAnswer(labels[ks[k]], Combined(ChunksOf(rows, ks[k])))
  {
    FormatGroupsAreLabelledKeys(PartnerOrder(rows), GroupMap(rows), labels);
  }

  /** An occurrence of a later group's partner is preceded by an occurrence of each earlier
      group's partner. */
  lemma {:induction false} EarlierGroupSeenFirst(rows: seq<ChunkMatch>, i: nat, j: nat, k: nat)
    requires i < j < |PartnerOrder(rows)| && k < |rows|
    requires rows[k].partnerId == PartnerOrder(rows)[j]
    ensures exists k' :: 0 <= k' < k && rows[k'].partnerId == PartnerOrder(rows)[i]
    decreases |rows|
  {
    var pre := rows[..|rows| - 1];
    var x := rows[|rows| - 1];
    var ids := PartnerOrder(rows);
    var preIds := PartnerOrder(pre);
    assert forall k :: 0 <= k < |pre| ==> pre[k] == rows[k];
    if x.partnerId in preIds {
      assert ids == preIds;
      var k2 := k;
      if k == |pre| {
        assert preIds[j] in preIds;
        k2 :| 0 <= k2 < |pre| && pre[k2].partnerId == preIds[j];
      }
      EarlierGroupSeenFirst(pre, i, j, k2);
      var k' :| 0 <= k' < k2 && pre[k'].partnerId == preIds[i];
      assert rows[k'].partnerId == ids[i];
    } else {
      assert ids == preIds + [x.partnerId];
      if j < |preIds| {
        assert k < |pre|;
        EarlierGroupSeenFirst(pre, i, j, k);
        var k' :| 0 <= k' < k && pre[k'].partnerId == preIds[i];
        assert rows[k'].partnerId == ids[i];
      } else {
        assert k == |pre|;
        assert preIds[i] in preIds;
        var k2 :| 0 <= k2 < |pre| && pre[k2].partnerId == preIds[i];
        assert rows[k2].partnerId == ids[i];
      }
    }
  }

  /** The document tier finds nothing, and control falls through, exactly when no matched partner
      has a badge label. */
  lemma DocumentAnswersEmptyIff(rows: seq<ChunkMatch>, labels: map<PartnerId, string>)
    ensures DocumentAnswers(rows, labels) == [] <==>
      forall i :: 0 <= i < |rows| ==> rows[i].partnerId !in labels
  {
    DocumentAnswersAreLabelledPartners(rows, labels);
    var ids := PartnerOrder(rows);
    var ks := Filter(p => p in labels, ids);
    if ks == [] {
      forall i | 0 <= i < |rows| ensures rows[i].partnerId !in labels {
        var p := rows[i].partnerId;
        assert p in ids;
        FilterCount(p => p in labels, ids, p);
        assert multiset(ids)[p] > 0;
      }
    } else {
      assert ks[0] in ids;
    }
  }

  // ---------------------------------------------------------------------------------------------
  // Message assembly and get_answer
  // ---------------------------------------------------------------------------------------------

  /** Python truthiness of the optional chat id: `None` and `0` are false. */
  predicate Truthy(chatId: Option<int>)
  {
    chatId.Some? && chatId.value != 0
  }

  /** The memory used for a model call: none without a chat id. */
  function Memory(chatId: Option<int>, rows: Option<seq<Message>>): seq<Message>
  {
    if Truthy(chatId) then HistoryView(rows, HISTORY_LIMIT) else []
  }

  /** `messages`: the system instruction, the memory in order, then the user's text. */
  function ModelMessages(history: seq<Message>, question: string): seq<Message>
  {
    [Message("system", SYSTEM_PROMPT)] + history + [Message("user", question)]
  }

  function TitleMessages(question: string): seq<Message>
  {
    [Message("system", TITLE_PROMPT), Message("user", question)]
  }

  /** The title is asked for only in a chat whose reloaded memory has at most one message. */
  predicate TitleWanted(chatId: Option<int>, reloaded: Option<seq<Message>>)
  {
    Truthy(chatId) && |HistoryView(reloaded, HISTORY_LIMIT)| <= 1
  }

  function GeneralAnswer(completion: Option<string>): string
  {
    if completion.Some? then Strip(completion.value) else AI_ERROR_TEXT
  }

  /** The message lists sent to the model, in call order. */
  function Completions(calls: seq<Call>): seq<seq<Message>>
  {
    if calls == [] then []
    else
      Completions(calls[..|calls| - 1])
      + (if calls[|calls| - 1].Completion? then [calls[|calls| - 1].messages] else [])
  }

  lemma {:induction false} CompletionsAppend(a: seq<Call>, b: seq<Call>)
    ensures Completions(a + b) == Completions(a) + Completions(b)
    decreases |b|
  {
    if b == [] {
      assert a + b == a;
    } else {
      var b' := b[..|b| - 1];
      CompletionsAppend(a, b');
      assert (a + b)[..|a + b| - 1] == a + b';
    }
  }

  lemma CompletionsOfOne(c: Call)
    ensures Completions([c]) == if c.Completion? then [c.messages] else []
  {
    assert [c][..0] == [];
  }

  lemma {:induction false} LookupsCallNoModel(keys: seq<PartnerId>)
    ensures Completions(Lookups(keys)) == []
    decreases |keys|
  {
    if keys != [] {
      LookupsCallNoModel(keys[..|keys| - 1]);
      assert Lookups(keys)[..|keys| - 1] == Lookups(keys[..|keys| - 1]);
    }
  }

  /** A model message list built from loaded memory has one system message, first, then only user
      and assistant messages, the user's text last; it never exceeds the history limit plus two. */
  lemma ModelMessagesShape(chatId: Option<int>, rows: Option<seq<Message>>, question: string)
    ensures var m := ModelMessages(Memory(chatId, rows), question);
      && |m| == |Memory(chatId, rows)| + 2 <= HISTORY_LIMIT + 2
      && m[0] == Message("system", SYSTEM_PROMPT)
      && (forall i :: 1 <= i < |m| ==> IsDialogue(m[i]))
      && m[|m| - 1] == Message("user", question)
  {
    if Truthy(chatId) && rows.Some? {
      var all := Filter(IsDialogue, rows.value);
      assert Memory(chatId, rows) == PyTail(all, HISTORY_LIMIT);
    }
  }

  /** The partner document tier: one search, then one partner lookup per group. */
  method DocumentTier(message: string, b: Backend) returns (answers: seq<PartnerAnswer>, calls: seq<Call>)
    ensures answers == DocumentAnswers(b.chunkMatches, b.badgeLabels)
    ensures calls == [ChunkSearch(message)] + Lookups(PartnerOrder(b.chunkMatches))
    ensures Completions(calls) == []
  {
    calls := [ChunkSearch(message)];
    answers := [];
    if |b.chunkMatches| > 0 {
      var grouped := GroupByPartner(b.chunkMatches);
      var lookups;
      answers, lookups := FormatPartnerAnswers(grouped, b.badgeLabels);
      calls := calls + lookups;
    } else {
      assert calls == calls + Lookups([]);
    }
    LookupsCallNoModel(PartnerOrder(b.chunkMatches));
    CompletionsOfOne(ChunkSearch(message));
    CompletionsAppend([ChunkSearch(message)], Lookups(PartnerOrder(b.chunkMatches)));
  }

  /** The title step of a chat: reload the memory and, for a first exchange, ask for a title. */
  method TitleStep(message: string, chatId: Option<int>, b: Backend) returns (newTitle: Option<string>, calls: seq<Call>)
    requires Truthy(chatId)
    ensures newTitle == if TitleWanted(chatId, b.reloadedHistory) && b.titleCompletion.Some?
                        then Some(Strip(b.titleCompletion.value)) else None
    ensures Completions(calls) == if TitleWanted(chatId, b.reloadedHistory) then [TitleMessages(message)] else []
  {
    newTitle := None;
    calls := [HistoryLoad(chatId.value)];
    var existingMessages := GetChatHistory(b.reloadedHistory, HISTORY_LIMIT);
    if |existingMessages| <= 1 {
      calls := calls + [Completion(TitleMessages(message), TITLE_TEMPERATURE)];
      assert Completions(calls) == [TitleMessages(message)] by {
        CompletionsOfOne(HistoryLoad(chatId.value));
        CompletionsOfOne(Completion(TitleMessages(message), TITLE_TEMPERATURE));
        CompletionsAppend([HistoryLoad(chatId.value)], [Completion(TitleMessages(message), TITLE_TEMPERATURE)]);
      }
      if b.titleCompletion.Some? {
        newTitle := Some(Strip(b.titleCompletion.value));
        CompletionsOfOne(TitleSave(chatId.value, newTitle.value));
        CompletionsAppend(calls, [TitleSave(chatId.value, newTitle.value)]);
        calls := calls + [TitleSave(chatId.value, newTitle.value)];
      }
    }
  }

  /** The general tier: the model call with memory, then the title step. */
  method GeneralTier(message: string, chatId: Option<int>, b: Backend)
    returns (answer: string, newTitle: Option<string>, calls: seq<Call>)
    ensures answer == GeneralAnswer(b.completion)
    ensures newTitle == if TitleWanted(chatId, b.reloadedHistory) && b.titleCompletion.Some?
                        then Some(Strip(b.titleCompletion.value)) else None
    ensures Completions(calls) == [ModelMessages(Memory(chatId, b.history), message)]
                                  + (if TitleWanted(chatId, b.reloadedHistory) then [TitleMessages(message)] else [])
  {
    calls := [];
    var history: seq<Message> := [];
    if Truthy(chatId) {
      calls := [HistoryLoad(chatId.value)];
      history := GetChatHistory(b.history, HISTORY_LIMIT);
    }
    var messages := ModelMessages(history, message);
    calls := calls + [Completion(messages, ANSWER_TEMPERATURE)];
    assert Completions(calls) == [messages] by {
      CompletionsOfOne(Completion(messages, ANSWER_TEMPERATURE));
      if Truthy(chatId) {
        CompletionsOfOne(HistoryLoad(chatId.value));
        CompletionsAppend([HistoryLoad(chatId.value)], [Completion(messages, ANSWER_TEMPERATURE)]);
      }
    }
    answer := GeneralAnswer(b.completion);
    newTitle := None;
    if Truthy(chatId) {
      var titleCalls;
      newTitle, titleCalls := TitleStep(message, chatId, b);
      CompletionsAppend(calls, titleCalls);
      calls := calls + titleCalls;
    }
  }

  /** get_answer: the four tiers in order, each consulted only when the ones before it missed. */
  method GetAnswer(message: string, userRole: string, chatId: Option<int>, b: Backend)
    returns (r: AnswerResult, calls: seq<Call>)
    // the similarity searches are given the raw text, never the normalized one
    ensures |calls| >= 1 && calls[0] == QaSearch(message)
    ensures |b.qaMatches| > 0 ==>
      && r == AnswerResult(Answer(b.qaMatches[0].answer), DbSemantic, FOLLOW_UPS, false, None)
      && calls == [QaSearch(message)]
    ensures |b.qaMatches| == 0 && DocumentAnswers(b.chunkMatches, b.badgeLabels) != [] ==>
      && r == AnswerResult(Answers(DocumentAnswers(b.chunkMatches, b.badgeLabels)), DbSemanticMulti,
                           FOLLOW_UPS, false, None)
      && calls == [QaSearch(message), ChunkSearch(message)] + Lookups(PartnerOrder(b.chunkMatches))
    ensures |b.qaMatches| == 0 && DocumentAnswers(b.chunkMatches, b.badgeLabels) == []
            && MentionsDomain(Normalize(message)) ==>
      && r == AnswerResult(Answer(NO_ANSWER_FALLBACK), NoAnswer, FOLLOW_UPS, userRole == "guest", None)
      && calls == [QaSearch(message), ChunkSearch(message)] + Lookups(PartnerOrder(b.chunkMatches))
    ensures |b.qaMatches| == 0 && DocumentAnswers(b.chunkMatches, b.badgeLabels) == []
            && !MentionsDomain(Normalize(message)) ==>
      && r.reply == Answer(GeneralAnswer(b.completion))
      && r.source == OpenAiGeneral && r.actions == [] && !r.requiresAuth
      && r.newTitle == (if TitleWanted(chatId, b.reloadedHistory) && b.titleCompletion.Some?
                        then Some(Strip(b.titleCompletion.value)) else None)
      && Completions(calls) == [ModelMessages(Memory(chatId, b.history), message)]
                               + (if TitleWanted(chatId, b.reloadedHistory) then [TitleMessages(message)] else [])
  {
    var userNorm := Normalize(message);
    calls := [QaSearch(message)];

    // 1. partner Q&A
    if |b.qaMatches| > 0 {
      r := AnswerResult(Answer(b.qaMatches[0].answer), DbSemantic, FOLLOW_UPS, false, None);
      return;
    }

    // 2. partner documents
    var formattedAnswers, documentCalls := DocumentTier(message, b);
    CompletionsOfOne(QaSearch(message));
    CompletionsAppend(calls, documentCalls);
    ConsTwo(QaSearch(message), ChunkSearch(message), Lookups(PartnerOrder(b.chunkMatches)));
    calls := calls + documentCalls;
    if |formattedAnswers| > 0 {
      r := AnswerResult(Answers(formattedAnswers), DbSemanticMulti, FOLLOW_UPS, false, None);
      return;
    }

    // 3. domain keywords
    if MentionsDomain(userNorm) {
      r := AnswerResult(Answer(NO_ANSWER_FALLBACK), NoAnswer, FOLLOW_UPS, userRole == "guest", None);
      return;
    }

    // 4. general model call with memory, and the chat title
    var answer, newTitle, generalCalls := GeneralTier(message, chatId, b);
    CompletionsAppend(calls, generalCalls);
    calls := calls + generalCalls;
    r := AnswerResult(Answer(answer), OpenAiGeneral, [], false, newTitle);
  }

  /** Whatever the title call does, the answer, its source, actions and gate stay the same. */
  method TitleOutcomeLeavesAnswer(message: string, userRole: string, chatId: Option<int>, b: Backend,
                                  otherTitle: Option<string>)
    returns (r1: AnswerResult, r2: AnswerResult)
    ensures r1.reply == r2.reply && r1.source == r2.source
    ensures r1.actions == r2.actions && r1.requiresAuth == r2.requiresAuth
  {
    var calls1, calls2;
    r1, calls1 := GetAnswer(message, userRole, chatId, b);
    r2, calls2 := GetAnswer(message, userRole, chatId, b.(titleCompletion := otherTitle));
    if |b.qaMatches| == 0 && DocumentAnswers(b.chunkMatches, b.badgeLabels) == [] {
      if MentionsDomain(Normalize(message)) {
        assert r1 == r2;
      }
    }
  }

  /** ask_ai_only: the same message list as the general tier; a failing model call raises, which
      is modelled as `None`. */
  method AskAiOnly(question: string, chatId: Option<int>, rows: Option<seq<Message>>, completion: Option<string>)
    returns (messages: seq<Message>, answer: Option<string>)
    ensures messages == ModelMessages(Memory(chatId, rows), question)
    ensures |messages| == |Memory(chatId, rows)| + 2
    ensures forall i :: 1 <= i < |messages| ==> IsDialogue(messages[i])
    ensures answer == if completion.Some? then Some(Strip(completion.value)) else None
  {
    var history: seq<Message> := [];
    if Truthy(chatId) {
      history := GetChatHistory(rows, HISTORY_LIMIT);
    }
    messages := [Message("system", SYSTEM_PROMPT)];
    messages := messages + history;
    messages := messages + [Message("user", question)];
    answer := if completion.Some? then Some(Strip(completion.value)) else None;
  }

  // ---------------------------------------------------------------------------------------------
  // track_click and get_user_name_by_email
  // ---------------------------------------------------------------------------------------------

  /** The row track_click inserts into user_clicks. */
  function ClickRow(chatId: Option<int>, button: string, question: string, userEmail: Option<string>,
                    userRole: string): (e: ClickEvent)
    ensures e.userType == "user" || e.userType == "guest"
    ensures e.userType == "guest" <==> userRole == "guest"
    ensures e.chatId == chatId && e.button == button && e.question == question && e.userEmail == userEmail
  {
    ClickEvent(chatId, userEmail, if userRole != "guest" then "user" else "guest", button, question)
  }

  predicate HasProfileName(email: string, profiles: map<string, string>)
  {
    CanonicalEmail(email) in profiles && profiles[CanonicalEmail(email)] != ""
  }

  /** The fallback name: the part of the address before the first "@", capitalized. It has no
      "@", the length of that part, and the same letters up to case. */
  function FallbackName(email: string): (name: string)
    ensures var local := SplitOn(email, "@")[0];
      && |local| <= |email| && local == email[..|local|]
      && '@' !in name && |name| == |local| && Lower(name) == Lower(local)
      && (|name| > 0 ==> !IsLower(name[0]))
      && (forall i :: 1 <= i < |name| ==> !IsUpper(name[i]))
  {
    FirstPieceBefore(email, '@');
    var local := SplitOn(email, "@")[0];
    var name := Capitalize(local);
    assert forall i :: 0 <= i < |name| ==> name[i] != '@' by {
      forall i | 0 <= i < |name| ensures name[i] != '@' {
        assert ToLower(name[i]) == ToLower(local[i]);
        assert local[i] in local;
      }
    }
    assert Lower(name) == Lower(local);
    name
  }

  /** get_user_name_by_email: the stored profile name when there is a non-empty one, otherwise the
      fallback name. A failed lookup is a missing key. The name is empty only for an address with
      nothing before its "@" and no stored name; a fallback name never holds an "@". */
  function UserName(email: string, profiles: map<string, string>): (name: string)
    ensures CanonicalEmail(email) in profiles && profiles[CanonicalEmail(email)] != "" ==>
      name == profiles[CanonicalEmail(email)]
    ensures name == "" <==> !HasProfileName(email, profiles) && (email == "" || email[0] == '@')
    ensures !HasProfileName(email, profiles) ==>
      '@' !in name && Lower(name) == Lower(SplitOn(email, "@")[0])
  {
    if HasProfileName(email, profiles) then profiles[CanonicalEmail(email)]
    else
      FirstPieceBefore(email, '@');
      FallbackName(email)
  }
}
