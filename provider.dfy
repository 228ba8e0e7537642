/** The Ollama edit-prediction provider: its configuration read from the
    environment, the reading of the streamed chat response, and the state
    it keeps between a refresh, the arrival of that refresh's completion and
    the editor's suggest, accept and discard calls
    (crates/ollama/src/edit_prediction_completion_provider.rs). */
module Provider {
  import opened Wrappers
  import opened Text
  import opened Prompt
  import opened PostProcess

  const ModelVar := "OLLAMA_MODEL"
  const ApiUrlVar := "OLLAMA_API_URL"
  const ApiKeyVar := "OLLAMA_API_KEY"

  /** An environment variable that is set and not empty. */
  function NonEmptyVar(env: map<string, string>, name: string): (r: Option<string>)
    ensures r.Some? <==> name in env && env[name] != []
    ensures r.Some? ==> r.value == env[name]
  {
    if name in env && env[name] != [] then Some(env[name]) else None
  }

  /** A range between two buffer anchors; `A` is the editor's anchor type. */
  datatype AnchorRange<A> = AnchorRange(start: A, end: A)

  datatype Edit<A> = Edit(range: AnchorRange<A>, text: string)

  /** A prediction shown in the buffer itself: a list of edits. */
  datatype EditPrediction<A> = Local(edits: seq<Edit<A>>)

  /** A prediction that inserts non-blank text at the anchor `at` and does
      nothing else. */
  predicate InsertsAt<A(==)>(p: EditPrediction<A>, at: A) {
    && |p.edits| == 1
    && p.edits[0].range == AnchorRange(at, at)
    && !Blank(p.edits[0].text)
  }

  /** What a refresh reads from the buffer: its entity id (`B`), its text,
      the file path, the language at the cursor and the indentation
      settings. */
  datatype BufferSnapshot<B> = BufferSnapshot(id: B, text: string, path: Option<string>,
                                              language: Option<string>, tabSize: nat, hardTabs: bool)

  /** One streamed chunk of the chat response. */
  datatype Delta = Delta(message: ChatMessage, done: bool)

  /** An item of the response stream: a chunk, or a failure to read one. */
  datatype StreamItem = Chunk(delta: Delta) | StreamError

  /** The text an assistant chunk contributes; other messages add nothing. */
  function ChunkText(d: Delta): string {
    if d.message.Assistant? then d.message.content else ""
  }

  function Prepend(s: string, o: Option<string>): Option<string> {
    match o
    case None => None
    case Some(t) => Some(s + t)
  }

  /** The completion a stream yields: the assistant texts up to and including
      the first chunk marked done, or up to the end of the stream; no
      completion if an item fails before that. */
  function StreamText(items: seq<StreamItem>): Option<string> {
    if items == [] then Some("")
    else match items[0]
      case StreamError => None
      case Chunk(d) =>
        if d.done then Some(ChunkText(d)) else Prepend(ChunkText(d), StreamText(items[1..]))
  }

  /** Items that are all chunks and none of them marked done. */
  predicate OpenRun(items: seq<StreamItem>) {
    forall j :: 0 <= j < |items| ==> items[j].Chunk? && !items[j].delta.done
  }

  /** The assistant texts of a run of chunks, concatenated. */
  function RunText(items: seq<StreamItem>): string
    requires OpenRun(items)
  {
    if items == [] then "" else ChunkText(items[0].delta) + RunText(items[1..])
  }

  /** A stream that ends without a failure or a done chunk yields all of its
      assistant texts. */
  lemma {:induction false} OpenStreamYieldsAll(items: seq<StreamItem>)
    requires OpenRun(items)
    ensures StreamText(items) == Some(RunText(items))
  {
    if items != [] {
      OpenStreamYieldsAll(items[1..]);
    }
  }

  /** Nothing after the first done chunk is read: a failure there or more
      text changes nothing. */
  lemma {:induction false} StreamStopsAtDone(items: seq<StreamItem>, d: Delta, later: seq<StreamItem>)
    requires OpenRun(items) && d.done
    ensures StreamText(items + [Chunk(d)] + later) == Some(RunText(items) + ChunkText(d))
  {
    if items == [] {
      assert (items + [Chunk(d)] + later)[0] == Chunk(d);
      assert RunText(items) + ChunkText(d) == ChunkText(d);
    } else {
      var s := items + [Chunk(d)] + later;
      assert s[0] == items[0] && s[1..] == items[1..] + [Chunk(d)] + later;
      assert OpenRun(items[1..]);
      StreamStopsAtDone(items[1..], d, later);
      assert RunText(items) + ChunkText(d) == ChunkText(items[0].delta) + (RunText(items[1..]) + ChunkText(d));
    }
  }

  /** A failure before any done chunk loses the whole completion, whatever
      was received before it. */
  lemma {:induction false} StreamErrorLosesAll(items: seq<StreamItem>, later: seq<StreamItem>)
    requires OpenRun(items)
    ensures StreamText(items + [StreamError] + later) == None
  {
    if items == [] {
      assert (items + [StreamError] + later)[0] == StreamError;
    } else {
      var s := items + [StreamError] + later;
      assert s[0] == items[0] && s[1..] == items[1..] + [StreamError] + later;
      assert OpenRun(items[1..]);
      StreamErrorLosesAll(items[1..], later);
    }
  }

  /** Reads the response stream chunk by chunk, appending assistant texts,
      until a chunk is marked done or the stream ends; a failed item ends
      the read without a completion. */
  method ReadStream(items: seq<StreamItem>) returns (r: Option<string>)
    ensures r == StreamText(items)
  {
    var completion := "";
    var i := 0;
    assert items[0..] == items;
    PrependEmpty(StreamText(items));
    while i < |items|
      invariant 0 <= i <= |items|
      invariant StreamText(items) == Prepend(completion, StreamText(items[i..]))
    {
      match items[i]
      case StreamError =>
        return None;
      case Chunk(d) =>
        assert items[i..][0] == items[i] && items[i..][1..] == items[i + 1..];
        PrependPrepend(completion, ChunkText(d), StreamText(items[i + 1..]));
        completion := completion + ChunkText(d);
        if d.done {
          break;
        }
        i := i + 1;
    }
    assert completion + "" == completion;
    r := Some(completion);
  }

  lemma PrependEmpty(o: Option<string>)
    ensures Prepend("", o) == o
  {
    if o.Some? {
      assert "" + o.value == o.value;
    }
  }

  lemma PrependPrepend(a: string, b: string, o: Option<string>)
    ensures Prepend(a, Prepend(b, o)) == Prepend(a + b, o)
  {
    if o.Some? {
      assert a + (b + o.value) == (a + b) + o.value;
    }
  }

  /** A refresh in flight: its identity, what it was started for and what it
      sends. The token stands for the spawned task; a task is cancelled by
      dropping it, which here means its token is no longer the pending one. */
  datatype RefreshTask<B, A> = RefreshTask(token: nat, bufferId: B, cursor: A, model: string,
                                           messages: seq<ChatMessage>, prefix: string,
                                           suffix: string, fim: bool, debounce: bool)

  /** The task a refresh with model `model` spawns as number `token`: the
      context collected around the cursor, the request messages built from
      it, and whether the response will be taken as a FIM completion. */
  function TaskFor<B, A>(snapshot: BufferSnapshot<B>, cursor: A, cursorOffset: nat, model: string,
                         token: nat, debounce: bool): (t: RefreshTask<B, A>)
    requires cursorOffset <= |snapshot.text|
    ensures t.prefix + t.suffix
            == snapshot.text[WindowStart(cursorOffset)..WindowEnd(|snapshot.text|, cursorOffset)]
    ensures |t.prefix| == Min(cursorOffset, MaxPrefixLen) && |t.suffix| == Min(|snapshot.text| - cursorOffset, MaxSuffixLen)
    ensures t.fim == SupportsFim(model)
  {
    var ctx := CollectContext(snapshot.text, cursorOffset, snapshot.path, snapshot.language,
                              snapshot.tabSize, snapshot.hardTabs);
    RefreshTask(token, snapshot.id, cursor, model, RequestMessages(ctx, model), ctx.prefix, ctx.suffix,
                SupportsFim(model), debounce)
  }

  /** Collects the context and builds the request messages of a new task. */
  method PrepareTask<B, A>(snapshot: BufferSnapshot<B>, cursor: A, cursorOffset: nat, model: string,
                           token: nat, debounce: bool) returns (t: RefreshTask<B, A>)
    requires cursorOffset <= |snapshot.text|
    ensures t == TaskFor(snapshot, cursor, cursorOffset, model, token, debounce)
  {
    var ctx := CollectContext(snapshot.text, cursorOffset, snapshot.path, snapshot.language,
                              snapshot.tabSize, snapshot.hardTabs);
    var messages := BuildMessages(ctx, model);
    t := RefreshTask(token, snapshot.id, cursor, model, messages, ctx.prefix, ctx.suffix,
                     SupportsFim(model), debounce);
  }

  class OllamaCompletionProvider<B(==), A(==)> {
    const apiUrl: string
    const apiKey: Option<string>
    const model: Option<string>

    var pendingRefresh: Option<nat>
    var bufferId: Option<B>
    var cursorPosition: Option<A>
    var prediction: Option<EditPrediction<A>>
    /** How many refresh tasks have been spawned; the next one's token. */
    var spawned: nat

    /** The pending task is the latest one spawned or an earlier one, and a
        prediction is held exactly when it is keyed by a buffer and a cursor,
        as one non-blank insertion at that cursor. */
    ghost predicate Valid()
      reads this
    {
      && (pendingRefresh.Some? ==> pendingRefresh.value < spawned)
      && bufferId.Some? == prediction.Some?
      && cursorPosition.Some? == prediction.Some?
      && (prediction.Some? ==> InsertsAt(prediction.value, cursorPosition.value))
    }

    /** Reads the model, the server address and the key from the environment,
        each only when set to a non-empty value; the address falls back to
        `defaultApiUrl`. Nothing is pending and nothing is predicted. */
    constructor(env: map<string, string>, defaultApiUrl: string)
      ensures model == NonEmptyVar(env, ModelVar)
      ensures apiKey == NonEmptyVar(env, ApiKeyVar)
      ensures apiUrl == NonEmptyVar(env, ApiUrlVar).GetOr(defaultApiUrl)
      ensures pendingRefresh == None && prediction == None && bufferId == None && cursorPosition == None
      ensures spawned == 0
      ensures Valid()
    {
      apiUrl := NonEmptyVar(env, ApiUrlVar).GetOr(defaultApiUrl);
      apiKey := NonEmptyVar(env, ApiKeyVar);
      model := NonEmptyVar(env, ModelVar);
      pendingRefresh := None;
      bufferId := None;
      cursorPosition := None;
      prediction := None;
      spawned := 0;
    }

    predicate IsEnabled()
    {
      model.Some?
    }

    predicate IsRefreshing()
      reads this
    {
      pendingRefresh.Some?
    }

    /** Drops the prediction; the buffer and cursor keys are cleared only
        when there was one. The pending refresh is left alone. */
    method ClearPrediction()
      modifies this
      ensures prediction == None
      ensures old(prediction).Some? ==> bufferId == None && cursorPosition == None
      ensures old(prediction).None? ==> bufferId == old(bufferId) && cursorPosition == old(cursorPosition)
      ensures pendingRefresh == old(pendingRefresh) && spawned == old(spawned)
      ensures old(Valid()) ==> Valid() && bufferId == None && cursorPosition == None
    {
      if prediction.Some? {
        prediction := None;
        bufferId := None;
        cursorPosition := None;
      }
    }

    /** Accepting the shown prediction drops it. */
    method Accept()
      requires Valid()
      modifies this
      ensures Valid()
      ensures prediction == None && bufferId == None && cursorPosition == None
      ensures pendingRefresh == old(pendingRefresh) && spawned == old(spawned)
    {
      ClearPrediction();
    }

    /** Discarding the shown prediction drops it. */
    method Discard()
      requires Valid()
      modifies this
      ensures Valid()
      ensures prediction == None && bufferId == None && cursorPosition == None
      ensures pendingRefresh == old(pendingRefresh) && spawned == old(spawned)
    {
      ClearPrediction();
    }

    /** The prediction, when it was made for this buffer at this cursor;
        nothing otherwise. */
    function Suggest(buffer: B, cursor: A): (r: Option<EditPrediction<A>>)
      reads this
      ensures r.Some? <==> prediction.Some? && bufferId == Some(buffer) && cursorPosition == Some(cursor)
      ensures r.Some? ==> r == prediction
    {
      if bufferId == Some(buffer) && cursorPosition == Some(cursor) then prediction else None
    }

    /** Whatever is suggested inserts non-blank text at the very cursor it is
        suggested for. */
    lemma SuggestionInsertsAtCursor(buffer: B, cursor: A)
      requires Valid()
      ensures Suggest(buffer, cursor).Some? ==> InsertsAt(Suggest(buffer, cursor).value, cursor)
    {
    }

    /** Starts a refresh for the cursor at anchor `cursor`, offset
        `cursorOffset` of the buffer's text. Without a model it only drops
        the prediction. Otherwise it collects the context, builds the
        request messages, drops the prediction and its keys, and makes a new
        task the pending one, which cancels any earlier one. */
    method Refresh(snapshot: BufferSnapshot<B>, cursor: A, cursorOffset: nat, debounce: bool)
      returns (task: Option<RefreshTask<B, A>>)
      requires Valid()
      requires cursorOffset <= |snapshot.text|
      modifies this
      ensures Valid()
      ensures prediction == None && bufferId == None && cursorPosition == None
      ensures task.Some? <==> IsEnabled()
      ensures !IsEnabled() ==> pendingRefresh == old(pendingRefresh) && spawned == old(spawned)
      ensures IsEnabled() ==>
        && task == Some(TaskFor(snapshot, cursor, cursorOffset, model.value, old(spawned), debounce))
        && pendingRefresh == Some(old(spawned)) && spawned == old(spawned) + 1
    {
      if model.None? {
        ClearPrediction();
        return None;
      }
      var t := PrepareTask(snapshot, cursor, cursorOffset, model.value, spawned, debounce);
      prediction := None;
      bufferId := None;
      cursorPosition := None;
      task := Some(t);
      pendingRefresh := Some(spawned);
      spawned := spawned + 1;
    }

    /** The end of a refresh task: `response` is the response stream, or
        nothing when the request could not be sent. A task that is no longer
        pending was cancelled and does nothing; a task whose request or
        stream failed stops before touching the provider, so it stays
        pending. Otherwise the completion is cleaned, the task is no longer
        pending, and the prediction becomes the cleaned text inserted at the
        task's cursor, or nothing when that text is blank. */
    method CompleteRefresh(task: RefreshTask<B, A>, response: Option<seq<StreamItem>>)
      requires Valid()
      modifies this
      ensures Valid()
      ensures spawned == old(spawned)
      ensures old(pendingRefresh) != Some(task.token) || response.None? || StreamText(response.value).None?
              ==> unchanged(this)
      ensures old(pendingRefresh) == Some(task.token) && response.Some? && StreamText(response.value).Some? ==>
        var text := CleanCompletion(StreamText(response.value).value, task.prefix, task.suffix, task.fim);
        && pendingRefresh == None
        && (Blank(text) ==> prediction == None && bufferId == None && cursorPosition == None)
        && (!Blank(text) ==>
              && prediction == Some(Local([Edit(AnchorRange(task.cursor, task.cursor), text)]))
              && bufferId == Some(task.bufferId) && cursorPosition == Some(task.cursor))
    {
      if pendingRefresh != Some(task.token) || response.None? {
        return;
      }
      var received := ReadStream(response.value);
      if received.None? {
        return;
      }
      var completion := Clean(received.value, task.prefix, task.suffix, task.fim);
      pendingRefresh := None;
      TrimEmptyIffBlank(completion);
      if Trim(completion) == [] {
        prediction := None;
        bufferId := None;
        cursorPosition := None;
        return;
      }
      prediction := Some(Local([Edit(AnchorRange(task.cursor, task.cursor), completion)]));
      bufferId := Some(task.bufferId);
      cursorPosition := Some(task.cursor);
    }
  }

  /** Two refreshes in a row, at anchors `c1` and then `c2`, with the first
      one's response arriving after the second refresh started: the late
      first response is ignored, and what is left is exactly what the second
      refresh's response makes. */
  method LatestRefreshWins<B(==), A(==)>(p: OllamaCompletionProvider<B, A>, first: BufferSnapshot<B>,
                                           second: BufferSnapshot<B>, c1: A, c2: A, offset1: nat,
                                           offset2: nat, response1: seq<StreamItem>,
                                           response2: seq<StreamItem>)
    requires p.Valid() && p.IsEnabled()
    requires offset1 <= |first.text| && offset2 <= |second.text|
    modifies p
    ensures p.Valid()
    ensures p.IsRefreshing() <==> StreamText(response2).None?
    ensures p.prediction.Some? ==> StreamText(response2).Some?
    ensures StreamText(response2).Some? ==>
      var t := TaskFor(second, c2, offset2, p.model.value, old(p.spawned) + 1, true);
      var text := CleanCompletion(StreamText(response2).value, t.prefix, t.suffix, t.fim);
      && (Blank(text) <==> p.prediction.None?)
      && (Blank(text) ==> p.bufferId == None && p.cursorPosition == None)
      && (!Blank(text) ==>
            && p.prediction == Some(Local([Edit(AnchorRange(c2, c2), text)]))
            && p.bufferId == Some(second.id) && p.cursorPosition == Some(c2))
  {
    var t1 := p.Refresh(first, c1, offset1, true);
    var t2 := p.Refresh(second, c2, offset2, true);
    p.CompleteRefresh(t1.value, Some(response1));
    p.CompleteRefresh(t2.value, Some(response2));
  }
}
