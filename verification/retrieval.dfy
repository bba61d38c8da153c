/** The query side of `queryPineconeVectorStoreAndQueryLLM`: which stored vectors the
    metadata filter admits, how the page contents of the matches become one context
    string, and how the language model's text becomes the answer.

    The similarity ranking of the vector store and the language model are external: the
    matches and the model's text arrive as inputs. */
module Retrieval {
  import opened Wrappers
  import opened Text
  import opened Ingestion

  /** At most this many matches are requested. */
  const TopK: nat := 10

  /** The query filter: the vector belongs to the asking user, or it carries one of the two
      shared data keys (the blog and the post collections). */
  predicate Visible(m: Metadata, userId: string, blogKey: string, postKey: string) {
    m.userId == Some(userId) || m.dataKey == Some(blogKey) || m.dataKey == Some(postKey)
  }

  /** The vectors of the store that the filter admits, in store order. */
  function Candidates(store: seq<VectorRecord>, userId: string, blogKey: string, postKey: string)
    : (r: seq<VectorRecord>)
    ensures |r| <= |store|
    ensures forall x :: x in r <==> x in store && Visible(x.metadata, userId, blogKey, postKey)
    decreases |store|
  {
    if store == [] then []
    else
      var rest := Candidates(store[1..], userId, blogKey, postKey);
      if Visible(store[0].metadata, userId, blogKey, postKey) then [store[0]] + rest else rest
  }

  /** What the store may answer: at most `TopK` vectors, each of them one the filter admits.
      Which ones, and in what order, is decided by the similarity ranking. */
  predicate ValidMatches(matches: seq<VectorRecord>, store: seq<VectorRecord>,
                         userId: string, blogKey: string, postKey: string)
    ensures ValidMatches(matches, store, userId, blogKey, postKey) <==>
      |matches| <= TopK &&
      forall k :: 0 <= k < |matches| ==>
        matches[k] in store && Visible(matches[k].metadata, userId, blogKey, postKey)
  {
    |matches| <= TopK &&
    forall k :: 0 <= k < |matches| ==> matches[k] in Candidates(store, userId, blogKey, postKey)
  }

  /** A match that belongs to another user reached the answer only through a shared data key. */
  lemma NoOtherUsersPrivateData(matches: seq<VectorRecord>, store: seq<VectorRecord>,
                                userId: string, blogKey: string, postKey: string, k: nat)
    requires ValidMatches(matches, store, userId, blogKey, postKey)
    requires k < |matches| && matches[k].metadata.userId != Some(userId)
    ensures matches[k] in store
    ensures matches[k].metadata.dataKey == Some(blogKey) || matches[k].metadata.dataKey == Some(postKey)
  {
    assert matches[k] in Candidates(store, userId, blogKey, postKey);
  }

  /** Every vector written for a user is visible to that user's queries, whatever its data key. */
  lemma OwnerSeesOwnVectors(chunks: seq<string>, embeddings: seq<Embedding>, userId: string,
                            dataKey: Option<string>, uniqueId: Option<string>,
                            store: seq<VectorRecord>, blogKey: string, postKey: string)
    requires |embeddings| == |chunks|
    requires forall x :: x in Records(chunks, embeddings, Some(userId), dataKey, uniqueId) ==> x in store
    ensures forall x :: x in Records(chunks, embeddings, Some(userId), dataKey, uniqueId) ==>
      x in Candidates(store, userId, blogKey, postKey)
  {
    RecordsWellFormed(chunks, embeddings, Some(userId), dataKey, uniqueId);
  }

  /** Document uploads carry no data key, so such a vector is visible exactly to its owner. */
  lemma UploadsArePrivate(chunks: seq<string>, embeddings: seq<Embedding>, owner: string, userId: string,
                          blogKey: string, postKey: string, i: nat)
    requires |embeddings| == |chunks| && i < |chunks|
    ensures Visible(Records(chunks, embeddings, Some(owner), None, None)[i].metadata, userId, blogKey, postKey)
      <==> owner == userId
  {
    RecordsWellFormed(chunks, embeddings, Some(owner), None, None);
  }

  /** The page contents of the matches, in the order they were returned. */
  function Contents(matches: seq<VectorRecord>): (r: seq<string>)
    ensures |r| == |matches|
  {
    seq(|matches|, k requires 0 <= k < |matches| => matches[k].metadata.pageContent)
  }

  /** `matches?.map(m => m.metadata.pageContent).join(' ') || ''`: an absent list gives the
      empty string, as does an empty one. */
  function ConcatenatedContent(matches: Option<seq<VectorRecord>>): (r: string)
    ensures matches.None? || matches.value == [] ==> r == ""
  {
    match matches
    case None => ""
    case Some(ms) => Join(Contents(ms), ' ')
  }

  /** The context is the contents and one space between each two of them, no more. */
  lemma ContextLength(matches: seq<VectorRecord>)
    requires |matches| >= 1
    ensures |ConcatenatedContent(Some(matches))| == TotalLength(Contents(matches)) + |matches| - 1
  {
    JoinLength(Contents(matches), ' ');
  }

  /** Splitting the context at spaces gives back the contents, in order, exactly when no
      content holds a space: then nothing is dropped, merged or reordered. */
  lemma ContextSplitsBack(matches: seq<VectorRecord>)
    requires |matches| >= 1
    ensures Split(ConcatenatedContent(Some(matches)), ' ') == Contents(matches) <==>
      forall k :: 0 <= k < |matches| ==> ' ' !in matches[k].metadata.pageContent
  {
    var context := ConcatenatedContent(Some(matches));
    if Split(context, ' ') == Contents(matches) {
      SplitPiecesHaveNoSeparator(context, ' ');
      forall k | 0 <= k < |matches| ensures ' ' !in matches[k].metadata.pageContent {
        assert Contents(matches)[k] == matches[k].metadata.pageContent;
      }
    }
    if forall k :: 0 <= k < |matches| ==> ' ' !in matches[k].metadata.pageContent {
      SplitJoin(Contents(matches), ' ');
    }
  }

  /** The model's two ways of saying it cannot answer. */
  const DoNotKnow := "I don't know."
  const NeedMoreInformation := "I need more information"

  /** What is returned instead, kept in four pieces so that the proofs about its
      characters can look at one short piece at a time. */
  const Clarification := ClarificationStart + ClarificationQuestion + ClarificationAsk + ClarificationEnd
  const ClarificationStart := "Hmm, I am not sure I "
  const ClarificationQuestion := "understand your question. "
  const ClarificationAsk := "Can you rephrase or "
  const ClarificationEnd := "provide more context?"

  predicate Unsure(text: string) {
    text == DoNotKnow || Contains(text, NeedMoreInformation)
  }

  /** The answer: the clarification request when the model was unsure, its text otherwise.
      The answer never reads as unsure itself, it is the clarification request exactly when
      the model was unsure or said that very request, and otherwise it is the model's text. */
  function FinalAnswer(text: string): (r: string)
    ensures !Unsure(r)
    ensures r == Clarification <==> Unsure(text) || text == Clarification
    ensures r != Clarification ==> r == text
  {
    ClarificationIsSure();
    if Unsure(text) then Clarification else text
  }

  /** A string that contains a pattern contains every character of the pattern. */
  lemma ContainsHasChars(s: string, pat: string, c: char)
    requires Contains(s, pat) && c in pat
    ensures c in s
  {
    var i := IndexOf(s, pat).value;
    var j :| 0 <= j < |pat| && pat[j] == c;
    assert s[i..i + |pat|][j] == c;
  }

  lemma ClarificationHasNoF()
    ensures 'f' !in Clarification
  {
    assert 'f' !in ClarificationStart && 'f' !in ClarificationQuestion;
    assert 'f' !in ClarificationAsk && 'f' !in ClarificationEnd;
  }

  /** The clarification request does not itself read as an unsure answer. */
  lemma ClarificationIsSure()
    ensures !Unsure(Clarification)
  {
    assert NeedMoreInformation[14] == 'f';
    ClarificationHasNoF();
    if Contains(Clarification, NeedMoreInformation) {
      ContainsHasChars(Clarification, NeedMoreInformation, 'f');
    }
  }

  /** Applying the fallback to its own answer changes nothing. */
  lemma FinalAnswerIdempotent(text: string)
    ensures FinalAnswer(FinalAnswer(text)) == FinalAnswer(text)
  {
  }
}
