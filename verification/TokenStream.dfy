/**
 Streaming a chatbot answer (agent.service.ts): tokens are passed on as they arrive, the full text is
 accumulated, and one usage event is logged per model call. The agent's stream is a list of chunks
 that then ends or fails.
 */
module TokenStream {
  import opened Wrappers

  datatype Usage = Usage(inputTokens: int, outputTokens: int, totalTokens: int)

  /** `content` is None when it is not a string. */
  datatype Chunk = Chunk(isModelNode: bool, content: Option<string>, usage: Option<Usage>)

  const EMPTY_MESSAGE: string := "No message to respond to."
  const SORRY: string := "Sorry, something went wrong on my end. Please try again."

  // ---- Text -------------------------------------------------------------------------------

  /** What String.prototype.trim removes. */
  predicate IsSpace(c: char) {
    || '\U{0009}' <= c <= '\U{000D}' || c == ' ' || c == '\U{00A0}' || c == '\U{1680}' || '\U{2000}' <= c <= '\U{200A}'
    || c == '\U{2028}' || c == '\U{2029}' || c == '\U{202F}' || c == '\U{205F}' || c == '\U{3000}' || c == '\U{FEFF}'
  }

  predicate IsBlank(s: string) { forall i :: 0 <= i < |s| ==> IsSpace(s[i]) }

  function Concat(texts: seq<string>): string {
    if texts == [] then "" else Concat(texts[..|texts| - 1]) + texts[|texts| - 1]
  }

  predicate Shown(c: Chunk) { c.isModelNode && c.content.Some? && !IsBlank(c.content.value) }

  /** The texts that the user sees, in order. */
  function Texts(chunks: seq<Chunk>): seq<string> {
    if chunks == [] then [] else
    var c := chunks[|chunks| - 1];
    Texts(chunks[..|chunks| - 1]) + if Shown(c) then [c.content.value] else []
  }

  // ---- Model calls --------------------------------------------------------------------------

  type Segment = seq<Chunk>

  /** The stream cut at every chunk that is not from the model node. */
  function Segments(chunks: seq<Chunk>): (s: seq<Segment>)
    ensures |s| >= 1
  {
    if chunks == [] then [[]] else
    var (s, c) := (Segments(chunks[..|chunks| - 1]), chunks[|chunks| - 1]);
    var n := |s| - 1;
    if c.isModelNode then s[..n] + [s[n] + [c]] else s + [[]]
  }

  function Separators(chunks: seq<Chunk>): seq<Chunk> {
    if chunks == [] then [] else
    var c := chunks[|chunks| - 1];
    Separators(chunks[..|chunks| - 1]) + if c.isModelNode then [] else [c]
  }

  function Join(segments: seq<Segment>, separators: seq<Chunk>): seq<Chunk>
    requires |segments| == |separators| + 1
  {
    var n := |separators|;
    if n == 0 then segments[0] else Join(segments[..n], separators[..n - 1]) + [separators[n - 1]] + segments[n]
  }

  predicate AllModel(s: Segment) { forall i :: 0 <= i < |s| ==> s[i].isModelNode }

  lemma JoinExtendsLast(segments: seq<Segment>, separators: seq<Chunk>, c: Chunk)
    requires |segments| == |separators| + 1
    ensures var n := |separators|; Join(segments[..n] + [segments[n] + [c]], separators) == Join(segments, separators) + [c]
  {
    var n := |separators|;
    var longer := segments[..n] + [segments[n] + [c]];
    if n > 0 { assert longer[..n] == segments[..n]; }
  }

  lemma JoinExtendsAfter(segments: seq<Segment>, separators: seq<Chunk>, c: Chunk)
    requires |segments| == |separators| + 1
    ensures Join(segments + [[]], separators + [c]) == Join(segments, separators) + [c]
  {
    var n := |separators|;
    assert (segments + [[]])[..n + 1] == segments && (separators + [c])[..n] == separators;
  }

  /** What one more chunk does to the segments and to what separates them. */
  lemma Cut(chunks: seq<Chunk>, c: Chunk)
    ensures var (s, sep) := (Segments(chunks), Separators(chunks));
            var n := |s| - 1;
            && Segments(chunks + [c]) == (if c.isModelNode then s[..n] + [s[n] + [c]] else s + [[]])
            && Separators(chunks + [c]) == (if c.isModelNode then sep else sep + [c])
  {
    assert (chunks + [c])[..|chunks|] == chunks;
    assert Separators(chunks) + [] == Separators(chunks);
  }

  ghost predicate Cuts(chunks: seq<Chunk>, s: seq<Segment>, sep: seq<Chunk>) {
    && |s| == |sep| + 1 && Join(s, sep) == chunks
    && (forall k :: 0 <= k < |s| ==> AllModel(s[k]))
    && (forall k :: 0 <= k < |sep| ==> !sep[k].isModelNode)
  }

  lemma CutsGrow(chunks: seq<Chunk>, s: seq<Segment>, sep: seq<Chunk>, c: Chunk)
    requires Cuts(chunks, s, sep)
    ensures if c.isModelNode then Cuts(chunks + [c], s[..|s| - 1] + [s[|s| - 1] + [c]], sep)
            else Cuts(chunks + [c], s + [[]], sep + [c])
  {
    hide Join;
    if c.isModelNode { JoinExtendsLast(s, sep, c); } else { JoinExtendsAfter(s, sep, c); }
  }

  /** The segments are the maximal runs of model chunks: they and what separates them make up the stream. */
  lemma {:induction false} SegmentsAreMaximalRuns(chunks: seq<Chunk>)
    ensures Cuts(chunks, Segments(chunks), Separators(chunks))
  {
    if chunks != [] {
      var (rest, c) := (chunks[..|chunks| - 1], chunks[|chunks| - 1]);
      SegmentsAreMaximalRuns(rest);
      assert rest + [c] == chunks;
      hide Cuts, Segments, Separators;
      Cut(rest, c);
      CutsGrow(rest, Segments(rest), Separators(rest), c);
    }
  }

  function LastUsage(s: Segment): Option<Usage> {
    if s == [] then None
    else if s[|s| - 1].usage.Some? then s[|s| - 1].usage
    else LastUsage(s[..|s| - 1])
  }

  predicate Billable(u: Option<Usage>) { u.Some? && u.value.totalTokens > 0 }

  /** For each run in order, its last usage, when that has a positive total. */
  function Events(segments: seq<Segment>): seq<Usage> {
    if segments == [] then [] else
    var u := LastUsage(segments[|segments| - 1]);
    Events(segments[..|segments| - 1]) + if Billable(u) then [u.value] else []
  }

  function Finished(segments: seq<Segment>): seq<Segment>
    requires |segments| >= 1
  {
    segments[..|segments| - 1]
  }

  // ---- Which chunks are logged ------------------------------------------------------------------

  /** A chunk that is not from the model node comes after chunk `i`: its run is over. */
  predicate Closed(chunks: seq<Chunk>, i: nat) { exists k :: i < k < |chunks| && !chunks[k].isModelNode }

  /** Chunk `i` is from the model node and reports usage, and any later usage lies beyond the end of its run. */
  predicate LastOfRun(chunks: seq<Chunk>, i: nat) {
    && i < |chunks| && chunks[i].isModelNode && chunks[i].usage.Some?
    && forall j :: i < j < |chunks| && chunks[j].usage.Some? ==> exists k :: i < k <= j && !chunks[k].isModelNode
  }

  /** The usage of chunk `i` is to be logged; when the stream fails, only if its run was over. */
  predicate Logs(chunks: seq<Chunk>, i: nat, fails: bool) {
    LastOfRun(chunks, i) && chunks[i].usage.value.totalTokens > 0 && (fails ==> Closed(chunks, i))
  }

  predicate Increasing(at: seq<nat>) { forall k, l :: 0 <= k < l < |at| ==> at[k] < at[l] }

  /** `logged` are the usages of exactly those chunks, in order. */
  ghost predicate LogOf(logged: seq<Usage>, chunks: seq<Chunk>, fails: bool, at: seq<nat>) {
    && |at| == |logged| && Increasing(at)
    && (forall k :: 0 <= k < |at| ==> Logs(chunks, at[k], fails) && chunks[at[k]].usage == Some(logged[k]))
    && (forall i: nat :: Logs(chunks, i, fails) ==> i in at)
  }

  ghost predicate LogsExactly(logged: seq<Usage>, chunks: seq<Chunk>, fails: bool) {
    exists at: seq<nat> :: LogOf(logged, chunks, fails, at)
  }

  lemma OneMore(chunks: seq<Chunk>, c: Chunk, i: nat)
    requires i <= |chunks|
    ensures var more := chunks + [c];
            && (Closed(more, i) <==> i < |chunks| && (Closed(chunks, i) || !c.isModelNode))
            && (LastOfRun(more, i) <==>
                  if i == |chunks| then c.isModelNode && c.usage.Some?
                  else LastOfRun(chunks, i) && (c.isModelNode && c.usage.Some? ==> Closed(chunks, i)))
  {
    var more := chunks + [c];
    assert more[|chunks|] == c && forall j :: 0 <= j < |chunks| ==> more[j] == chunks[j];
    if i < |chunks| {
      if !c.isModelNode { assert !more[|chunks|].isModelNode; }
      if k :| i < k < |chunks| && !chunks[k].isModelNode { assert !more[k].isModelNode; }
      if LastOfRun(chunks, i) && (c.isModelNode && c.usage.Some? ==> Closed(chunks, i)) {
        forall j | i < j < |more| && more[j].usage.Some? ensures exists k :: i < k <= j && !more[k].isModelNode {
          if j < |chunks| {
            var k :| i < k <= j && !chunks[k].isModelNode;
            assert !more[k].isModelNode;
          }
        }
      }
      if LastOfRun(more, i) {
        forall j | i < j < |chunks| && chunks[j].usage.Some? ensures exists k :: i < k <= j && !chunks[k].isModelNode {
          assert more[j].usage.Some?;
          var k :| i < k <= j && !more[k].isModelNode;
          assert !chunks[k].isModelNode;
        }
      }
    }
  }

  /** `last` is the chunk whose usage the open run would log. */
  ghost predicate OpenAt(chunks: seq<Chunk>, last: Option<nat>) {
    && (last.Some? ==> LastOfRun(chunks, last.value) && !Closed(chunks, last.value))
    && (forall i: nat :: LastOfRun(chunks, i) && !Closed(chunks, i) ==> last == Some(i))
  }

  lemma OpenGrows(chunks: seq<Chunk>, c: Chunk, last: Option<nat>)
    requires OpenAt(chunks, last)
    ensures OpenAt(chunks + [c], if !c.isModelNode then None else if c.usage.Some? then Some(|chunks|) else last)
  {
    forall i: nat | i <= |chunks|
      ensures Closed(chunks + [c], i) <==> i < |chunks| && (Closed(chunks, i) || !c.isModelNode)
      ensures LastOfRun(chunks + [c], i) <==>
                if i == |chunks| then c.isModelNode && c.usage.Some?
                else LastOfRun(chunks, i) && (c.isModelNode && c.usage.Some? ==> Closed(chunks, i))
    {
      OneMore(chunks, c, i);
    }
    assert forall i: nat :: LastOfRun(chunks + [c], i) ==> i <= |chunks|;
    assert forall i: nat :: LastOfRun(chunks, i) ==> i < |chunks|;
    hide LastOfRun, Closed;
  }

  lemma LogsOneMore(chunks: seq<Chunk>, c: Chunk, last: Option<nat>, i: nat)
    requires OpenAt(chunks, last)
    ensures Logs(chunks + [c], i, true)
            <==> Logs(chunks, i, true) || (!c.isModelNode && last == Some(i) && Logs(chunks, i, false))
  {
    if i <= |chunks| { OneMore(chunks, c, i); }
    hide Closed, LastOfRun;
  }

  /** A model chunk closes nothing; another one logs what the open run had. */
  lemma LogGrows(logged: seq<Usage>, chunks: seq<Chunk>, at: seq<nat>, c: Chunk, last: Option<nat>)
    requires LogOf(logged, chunks, true, at) && OpenAt(chunks, last)
    ensures c.isModelNode ==> LogOf(logged, chunks + [c], true, at)
    ensures !c.isModelNode ==>
              if last.Some? && chunks[last.value].usage.value.totalTokens > 0
              then LogOf(logged + [chunks[last.value].usage.value], chunks + [c], true, at + [last.value])
              else LogOf(logged, chunks + [c], true, at)
  {
    forall i: nat
      ensures Logs(chunks + [c], i, true)
              <==> Logs(chunks, i, true) || (!c.isModelNode && last == Some(i) && Logs(chunks, i, false))
    {
      LogsOneMore(chunks, c, last, i);
    }
    LastIsLatest(chunks, at, last);
    hide Logs, LastOfRun, Closed, OpenAt;
  }

  /** What the open run would log comes after everything that is logged. */
  lemma LastIsLatest(chunks: seq<Chunk>, at: seq<nat>, last: Option<nat>)
    requires (forall k :: 0 <= k < |at| ==> Logs(chunks, at[k], true)) && OpenAt(chunks, last)
    ensures last.Some? ==> forall k :: 0 <= k < |at| ==> at[k] < last.value
  {
    if last.Some? {
      forall k | 0 <= k < |at| ensures at[k] < last.value {
        var j :| at[k] < j < |chunks| && !chunks[j].isModelNode;
        if j <= last.value { } else { assert Closed(chunks, last.value); }
      }
    }
  }

  lemma {:induction false} FinishedPositions(chunks: seq<Chunk>) returns (at: seq<nat>, last: Option<nat>)
    ensures LogOf(Events(Finished(Segments(chunks))), chunks, true, at) && OpenAt(chunks, last)
    ensures var s := Segments(chunks);
            LastUsage(s[|s| - 1]) == if last.None? then None else chunks[last.value].usage
    decreases |chunks|
  {
    at, last := [], None;
    if chunks != [] {
      var (rest, c) := (chunks[..|chunks| - 1], chunks[|chunks| - 1]);
      assert rest + [c] == chunks;
      at, last := FinishedPositions(rest);
      LogGrows(Events(Finished(Segments(rest))), rest, at, c, last);
      OpenGrows(rest, c, last);
      var (s, t) := (Segments(rest), Segments(chunks));
      assert chunks[..|chunks| - 1] == rest && chunks[..|rest| + 1] == chunks;
      NextChunk(chunks, |rest|);
      EventsGrow(s);
      if c.isModelNode {
        LastUsageGrows(s[|s| - 1], c);
        if c.usage.Some? { last := Some(|rest|); }
      } else {
        if Billable(LastUsage(s[|s| - 1])) { at := at + [last.value]; }
        last := None;
      }
    }
  }

  lemma EventsGrow(segments: seq<Segment>)
    requires |segments| >= 1
    ensures var u := LastUsage(segments[|segments| - 1]);
            Events(segments) == Events(Finished(segments)) + if Billable(u) then [u.value] else []
  {
  }

  /** What is logged, chunk by chunk of the stream. */
  lemma LoggedPositions(chunks: seq<Chunk>, fails: bool) returns (at: seq<nat>)
    ensures LogOf(Events(if fails then Finished(Segments(chunks)) else Segments(chunks)), chunks, fails, at)
  {
    var last: Option<nat>;
    at, last := FinishedPositions(chunks);
    EventsGrow(Segments(chunks));
    LastIsLatest(chunks, at, last);
    if !fails {
      forall i: nat
        ensures Logs(chunks, i, false)
                <==> Logs(chunks, i, true) || (last == Some(i) && chunks[i].usage.value.totalTokens > 0)
      {
      }
      if last.Some? && chunks[last.value].usage.value.totalTokens > 0 { at := at + [last.value]; }
      hide Logs, LastOfRun, Closed, Events, Segments, LastUsage;
    }
  }

  /**
   Exactly these usages are logged, in order: of each run the last one, if its total is positive; when the
   stream fails, of the runs that were over.
   */
  lemma EventsAreLogged(chunks: seq<Chunk>, fails: bool)
    ensures LogsExactly(Events(if fails then Finished(Segments(chunks)) else Segments(chunks)), chunks, fails)
  {
    var at := LoggedPositions(chunks, fails);
    hide LogOf;
  }

  // ---- The loop -------------------------------------------------------------------------------

  lemma ConcatGrows(texts: seq<string>, t: string)
    ensures Concat(texts + [t]) == Concat(texts) + t
  {
    assert (texts + [t])[..|texts|] == texts;
  }

  lemma NextChunk(chunks: seq<Chunk>, i: nat)
    requires i < |chunks|
    ensures Texts(chunks[..i + 1]) == Texts(chunks[..i]) + if Shown(chunks[i]) then [chunks[i].content.value] else []
    ensures var (s, t) := (Segments(chunks[..i]), Segments(chunks[..i + 1]));
            if chunks[i].isModelNode
            then Finished(t) == Finished(s) && t[|t| - 1] == s[|s| - 1] + [chunks[i]]
            else Finished(t) == s && t[|t| - 1] == []
  {
    assert chunks[..i + 1][..i] == chunks[..i];
  }

  /** What the next chunk does to the texts and to the runs. */
  lemma ChunkArrives(chunks: seq<Chunk>, i: nat)
    requires i < |chunks|
    ensures Texts(chunks[..i + 1])
            == Texts(chunks[..i]) + (var c := chunks[i];
                                     if c.isModelNode && c.content.Some?
                                        && (exists k :: 0 <= k < |c.content.value| && !IsSpace(c.content.value[k]))
                                     then [c.content.value] else [])
    ensures var (s, t) := (Segments(chunks[..i]), Segments(chunks[..i + 1]));
            if chunks[i].isModelNode
            then Finished(t) == Finished(s) && t[|t| - 1] == s[|s| - 1] + [chunks[i]]
            else Finished(t) == s && t[|t| - 1] == []
  {
    NextChunk(chunks, i);
    hide Texts, Segments;
  }

  lemma LastUsageGrows(s: Segment, c: Chunk)
    ensures LastUsage(s + [c]) == if c.usage.Some? then c.usage else LastUsage(s)
  {
    assert (s + [c])[..|s|] == s;
  }

  /** `current` is the open run's usage, except that a used-up or worthless one may linger in a run without any. */
  predicate Tracks(current: Option<Usage>, open: Segment) {
    current == LastUsage(open) || (LastUsage(open).None? && !Billable(current))
  }

  /**
   The text returned is the concatenation of the tokens emitted, whatever happens. When the stream
   ends, every model call with a positive total is logged once, with its last usage, in order; when it
   fails, those that had finished are.
   */
  method InvokeWithHistoryStream(currentMessage: Option<string>, stream: seq<Chunk>, fails: bool)
    returns (fullContent: string, emitted: seq<string>, logged: seq<Usage>)
    ensures fullContent == Concat(emitted)
    ensures currentMessage.None? || IsBlank(currentMessage.value) ==> emitted == [EMPTY_MESSAGE] && logged == []
    ensures currentMessage.Some? && !IsBlank(currentMessage.value) ==>
              && emitted == (if fails && Texts(stream) == [] then [SORRY] else Texts(stream))
              && logged == Events(if fails then Finished(Segments(stream)) else Segments(stream))
              && LogsExactly(logged, stream, fails)
  {
    fullContent, emitted, logged := "", [], [];
    if currentMessage.None? || IsBlank(currentMessage.value) {
      fullContent, emitted := EMPTY_MESSAGE, [EMPTY_MESSAGE];
      ConcatGrows([], EMPTY_MESSAGE);
      return;
    }
    var currentNodeUsage: Option<Usage> := None;
    var i := 0;
    while i < |stream|
      invariant 0 <= i <= |stream|
      invariant emitted == Texts(stream[..i]) && fullContent == Concat(emitted)
      invariant logged == Events(Finished(Segments(stream[..i])))
      invariant var s := Segments(stream[..i]); Tracks(currentNodeUsage, s[|s| - 1])
    {
      var message := stream[i];
      ghost var s := Segments(stream[..i]);
      NextChunk(stream, i);
      i := i + 1;
      if !message.isModelNode {
        if Billable(currentNodeUsage) {
          logged := logged + [currentNodeUsage.value];
          currentNodeUsage := None;
        }
        continue;
      }
      LastUsageGrows(s[|s| - 1], message);
      if message.content.Some? && !IsBlank(message.content.value) {
        ConcatGrows(emitted, message.content.value);
        fullContent := fullContent + message.content.value;
        emitted := emitted + [message.content.value];
      }
      if message.usage.Some? { currentNodeUsage := message.usage; }
    }
    assert stream[..i] == stream;
    EventsAreLogged(stream, fails);
    if !fails {
      if Billable(currentNodeUsage) { logged := logged + [currentNodeUsage.value]; }
    } else if fullContent == "" {
      NothingShown(stream);
      fullContent := SORRY;
      emitted := emitted + [fullContent];
      ConcatGrows([], SORRY);
    } else {
      assert emitted != [];
    }
  }

  /** Shown texts are not blank, so an empty full text means that nothing was shown. */
  lemma {:induction false} NothingShown(chunks: seq<Chunk>)
    ensures Concat(Texts(chunks)) == "" ==> Texts(chunks) == []
  {
    if chunks != [] {
      var (rest, c) := (chunks[..|chunks| - 1], chunks[|chunks| - 1]);
      NothingShown(rest);
      if Shown(c) {
        ConcatGrows(Texts(rest), c.content.value);
        assert |Concat(Texts(chunks))| >= |c.content.value| > 0;
      } else {
        assert Texts(rest) + [] == Texts(rest);
      }
    }
  }
}
