/** internal/p2p/transfer_protocol.go: SendFile against handleStream.

    Two programs run concurrently and talk over a FIFO stream in each direction. Their program points
    are the states of a state machine; a step is one stream operation of one party together with the
    local work before the next one. The stream may be cut at any time: a suffix of what is under way
    is lost and nothing written later arrives. */
module Transfer {
  import opened Common

  datatype Chunk = Chunk(index: nat, data: Bytes, hash: string, isLast: bool)

  /** Messages to the receiver; the header carries nothing the loop depends on but the transfer id. */
  datatype Message = Header | ChunkMessage(chunk: Chunk)

  datatype Ack = Ack(index: nat, accepted: bool)

  datatype Sender =
    | WritingHeader
    | WritingChunk(i: nat)
    | ReadingAck(i: nat)
    | Returned(ok: bool)  // ok: SendFile returned nil

  datatype Receiver =
    | ReadingHeader
    | ReadingChunk
    | WritingAck(chunk: Chunk)  // the chunk has been dealt with, its positive ack is not yet written
    | Stopped

  datatype Config = Config(
    totalChunks: int,
    hasStore: bool,             // handleStream acknowledges even without a chunk store
    digest: Bytes -> string)

  datatype State = State(
    sender: Sender,
    receiver: Receiver,
    toReceiver: seq<Message>,
    toSender: seq<Ack>,
    cut: bool,
    store: map<nat, Bytes>,     // the receiver's chunks of this transfer, by index
    sent: seq<Chunk>,           // chunks the sender has written
    saved: seq<Chunk>,          // chunks the receiver has taken over, in order
    acked: nat)                 // positive acks the sender has read

  /** `written` is what the writer is told; a failed write may still have delivered the message. */
  datatype Action =
    | WriteHeader(written: bool, delivered: bool)
    | ReadSourceFails
    | WriteChunk(data: Bytes, hash: string, written: bool, delivered: bool)
    | ReadAck
    | ReadAckFails
    | ReceiveHeader
    | ReceiveHeaderFails
    | ReceiveChunk(saveOk: bool)
    | ReceiveChunkFails(index: nat, delivered: bool)
    | ReceiveEof
    | WriteAck(delivered: bool)
    | Cut(keepToReceiver: nat, keepToSender: nat)

  function Start(store: map<nat, Bytes>): State {
    State(WritingHeader, ReadingHeader, [], [], false, store, [], [], 0)
  }

  /** What follows chunk i - 1 in the sender's loop. */
  function NextChunk(config: Config, i: nat): Sender {
    if i < config.totalChunks then WritingChunk(i) else Returned(true)
  }

  function Prefix<T>(s: seq<T>, n: nat): seq<T> {
    if n < |s| then s[..n] else s
  }

  /** A write enqueues the message unless it fails early or the stream is cut. */
  function Enqueue<T>(queue: seq<T>, message: T, delivered: bool, cut: bool): seq<T> {
    if delivered && !cut then queue + [message] else queue
  }

  /** One step; an action that is not possible in a state leaves it unchanged. */
  function Step(config: Config, s: State, a: Action): State {
    match a
    case WriteHeader(written, delivered) =>
      if !s.sender.WritingHeader? then s else
        s.(toReceiver := Enqueue(s.toReceiver, Header, written || delivered, s.cut),
           sender := if written then NextChunk(config, 0) else Returned(false))
    case ReadSourceFails =>
      if !s.sender.WritingChunk? then s else s.(sender := Returned(false))
    case WriteChunk(data, hash, written, delivered) =>
      if !s.sender.WritingChunk? then s else
        var i := s.sender.i;
        var chunk := Chunk(i, data, hash, i == config.totalChunks - 1);
        s.(toReceiver := Enqueue(s.toReceiver, ChunkMessage(chunk), written || delivered, s.cut),
           sent := s.sent + [chunk],
           sender := if written then ReadingAck(i) else Returned(false))
    case ReadAck =>
      if !s.sender.ReadingAck? || s.toSender == [] then s else
        var s' := s.(toSender := s.toSender[1..]);
        if s.toSender[0].accepted then
          s'.(acked := s.acked + 1, sender := NextChunk(config, s.sender.i + 1))
        else
          s'.(sender := Returned(false))
    case ReadAckFails =>
      if !s.sender.ReadingAck? then s else s.(sender := Returned(false))
    case ReceiveHeader =>
      if !s.receiver.ReadingHeader? || s.toReceiver == [] || !s.toReceiver[0].Header? then s else
        s.(toReceiver := s.toReceiver[1..], receiver := ReadingChunk)
    case ReceiveHeaderFails =>
      if !s.receiver.ReadingHeader? then s else s.(receiver := Stopped)
    case ReceiveChunk(saveOk) =>
      if !s.receiver.ReadingChunk? || s.toReceiver == [] || !s.toReceiver[0].ChunkMessage? then s else
        var chunk := s.toReceiver[0].chunk;
        var s' := s.(toReceiver := s.toReceiver[1..]);
        if chunk.hash != "" && config.digest(chunk.data) != chunk.hash then
          Reject(s', chunk.index, true)
        else if config.hasStore && !saveOk then
          Reject(s', chunk.index, true)
        else
          s'.(store := if config.hasStore then s.store[chunk.index := chunk.data] else s.store,
              saved := s.saved + [chunk],
              receiver := WritingAck(chunk))
    case ReceiveChunkFails(index, delivered) =>
      if !s.receiver.ReadingChunk? then s else Reject(s, index, delivered)
    case ReceiveEof =>
      if !s.receiver.ReadingChunk? then s else s.(receiver := Stopped)
    case WriteAck(delivered) =>
      if !s.receiver.WritingAck? then s else
        var chunk := s.receiver.chunk;
        s.(toSender := Enqueue(s.toSender, Ack(chunk.index, true), delivered, s.cut),
           receiver := if chunk.isLast then Stopped else ReadingChunk)
    case Cut(keepToReceiver, keepToSender) =>
      s.(cut := true,
         toReceiver := Prefix(s.toReceiver, keepToReceiver),
         toSender := Prefix(s.toSender, keepToSender))
  }

  /** A negative ack, after which the receiver gives up. */
  function Reject(s: State, index: nat, delivered: bool): State {
    s.(toSender := Enqueue(s.toSender, Ack(index, false), delivered, s.cut), receiver := Stopped)
  }

  function Run(config: Config, store: map<nat, Bytes>, actions: seq<Action>): State {
    if actions == [] then Start(store) else
      Step(config, Run(config, store, actions[..|actions| - 1]), actions[|actions| - 1])
  }

  // ----- invariant

  /** Chunks under way to the receiver: behind the header, if that is still unread, and at most one. */
  ghost predicate QueueOk(s: State) {
    && |s.toReceiver| <= 2
    && (forall k | 0 <= k < |s.toReceiver| && s.toReceiver[k].Header? ::
          k == 0 && s.receiver in {ReadingHeader, Stopped})
    && (forall k | 0 <= k < |s.toReceiver| && s.toReceiver[k].ChunkMessage? ::
          && k == |s.toReceiver| - 1
          && |s.sent| == s.acked + 1 && |s.saved| == s.acked
          && s.toReceiver[k].chunk == s.sent[s.acked]
          && !s.receiver.WritingAck?
          && (s.toSender == [] || s.receiver.Stopped?))
  }

  /** A positive ack under way is the answer to the last chunk sent; a negative one is the last word. */
  ghost predicate AcksOk(s: State) {
    forall k | 0 <= k < |s.toSender| ::
      if s.toSender[k].accepted then
        k == 0 && s.toSender[k].index == s.acked && |s.saved| == |s.sent| == s.acked + 1 && !s.receiver.WritingAck?
      else
        s.receiver.Stopped?
  }

  ghost predicate SenderOk(config: Config, s: State) {
    match s.sender
    case WritingHeader => s.sent == [] && s.acked == 0 && s.toReceiver == [] && s.receiver in {ReadingHeader, Stopped}
    case WritingChunk(i) => |s.sent| == s.acked == i && i < config.totalChunks
    case ReadingAck(i) => |s.sent| == i + 1 && s.acked == i && i < config.totalChunks
    case Returned(true) => |s.sent| == s.acked && s.acked == if config.totalChunks <= 0 then 0 else config.totalChunks
    case Returned(false) => true
  }

  ghost predicate Inv(config: Config, s: State) {
    && s.acked <= |s.saved| <= |s.sent| <= s.acked + 1
    && s.saved <= s.sent
    && (forall i | 0 <= i < |s.sent| :: s.sent[i].index == i && s.sent[i].isLast == (i == config.totalChunks - 1))
    && (forall i | 0 <= i < |s.saved| :: s.saved[i].hash == "" || config.digest(s.saved[i].data) == s.saved[i].hash)
    && (s.receiver.ReadingHeader? ==> s.saved == [])
    && (s.receiver.WritingAck? ==> |s.saved| == s.acked + 1 && s.receiver.chunk == s.sent[s.acked] && s.toSender == [])
    && (config.hasStore ==> forall i | 0 <= i < |s.saved| :: i in s.store && s.store[i] == s.saved[i].data)
    && QueueOk(s) && AcksOk(s) && SenderOk(config, s)
  }

  lemma WriteHeaderKeepsInv(config: Config, s: State, written: bool, delivered: bool)
    requires Inv(config, s)
    ensures Inv(config, Step(config, s, WriteHeader(written, delivered)))
  {
  }

  lemma ReadSourceFailsKeepsInv(config: Config, s: State)
    requires Inv(config, s)
    ensures Inv(config, Step(config, s, ReadSourceFails))
  {
  }

  lemma WriteChunkKeepsInv(config: Config, s: State, data: Bytes, hash: string, written: bool, delivered: bool)
    requires Inv(config, s)
    ensures Inv(config, Step(config, s, WriteChunk(data, hash, written, delivered)))
  {
    assert |s.toSender| > 0 ==> if s.toSender[0].accepted then |s.sent| == s.acked + 1 else s.receiver.Stopped?;
    assert |s.toReceiver| == 2 ==> s.toReceiver[1].ChunkMessage?;
  }

  lemma ReadAckKeepsInv(config: Config, s: State)
    requires Inv(config, s)
    ensures Inv(config, Step(config, s, ReadAck))
  {
  }

  lemma ReadAckFailsKeepsInv(config: Config, s: State)
    requires Inv(config, s)
    ensures Inv(config, Step(config, s, ReadAckFails))
  {
  }

  lemma ReceiveHeaderKeepsInv(config: Config, s: State)
    requires Inv(config, s)
    ensures Inv(config, Step(config, s, ReceiveHeader))
  {
    assert |s.toReceiver| == 2 ==> s.toReceiver[1].ChunkMessage?;
  }

  lemma ReceiveHeaderFailsKeepsInv(config: Config, s: State)
    requires Inv(config, s)
    ensures Inv(config, Step(config, s, ReceiveHeaderFails))
  {
  }

  /** Taking a chunk from the stream, whatever is done with it. */
  lemma TakeChunkKeepsInv(config: Config, s: State)
    requires Inv(config, s) && s.toReceiver != [] && s.toReceiver[0].ChunkMessage?
    ensures Inv(config, s.(toReceiver := s.toReceiver[1..]))
  {
  }

  lemma RejectKeepsInv(config: Config, s: State, index: nat, delivered: bool)
    requires Inv(config, s) && s.receiver.ReadingChunk?
    ensures Inv(config, Reject(s, index, delivered))
  {
  }

  lemma AcceptKeepsInv(config: Config, s: State, store: map<nat, Bytes>)
    requires Inv(config, s) && s.receiver.ReadingChunk? && s.toReceiver != [] && s.toReceiver[0].ChunkMessage?
    requires var chunk := s.toReceiver[0].chunk;
             && (chunk.hash == "" || config.digest(chunk.data) == chunk.hash)
             && store == if config.hasStore then s.store[chunk.index := chunk.data] else s.store
    ensures var chunk := s.toReceiver[0].chunk;
            Inv(config, s.(toReceiver := s.toReceiver[1..], store := store, saved := s.saved + [chunk],
                           receiver := WritingAck(chunk)))
  {
  }

  lemma ReceiveChunkKeepsInv(config: Config, s: State, saveOk: bool)
    requires Inv(config, s)
    ensures Inv(config, Step(config, s, ReceiveChunk(saveOk)))
  {
    hide Inv;
    if s.receiver.ReadingChunk? && s.toReceiver != [] && s.toReceiver[0].ChunkMessage? {
      var chunk := s.toReceiver[0].chunk;
      TakeChunkKeepsInv(config, s);
      RejectKeepsInv(config, s.(toReceiver := s.toReceiver[1..]), chunk.index, true);
      if chunk.hash == "" || config.digest(chunk.data) == chunk.hash {
        AcceptKeepsInv(config, s, if config.hasStore then s.store[chunk.index := chunk.data] else s.store);
      }
    }
  }

  lemma ReceiveChunkFailsKeepsInv(config: Config, s: State, index: nat, delivered: bool)
    requires Inv(config, s)
    ensures Inv(config, Step(config, s, ReceiveChunkFails(index, delivered)))
  {
    hide Inv, Reject;
    if s.receiver.ReadingChunk? {
      RejectKeepsInv(config, s, index, delivered);
    }
  }

  lemma ReceiveEofKeepsInv(config: Config, s: State)
    requires Inv(config, s)
    ensures Inv(config, Step(config, s, ReceiveEof))
  {
  }

  lemma WriteAckKeepsInv(config: Config, s: State, delivered: bool)
    requires Inv(config, s)
    ensures Inv(config, Step(config, s, WriteAck(delivered)))
  {
  }

  lemma CutKeepsInv(config: Config, s: State, keepToReceiver: nat, keepToSender: nat)
    requires Inv(config, s)
    ensures Inv(config, Step(config, s, Cut(keepToReceiver, keepToSender)))
  {
  }

  lemma StepKeepsInv(config: Config, s: State, a: Action)
    requires Inv(config, s)
    ensures Inv(config, Step(config, s, a))
  {
    hide *;
    match a
    case WriteHeader(written, delivered) => WriteHeaderKeepsInv(config, s, written, delivered);
    case ReadSourceFails => ReadSourceFailsKeepsInv(config, s);
    case WriteChunk(data, hash, written, delivered) => WriteChunkKeepsInv(config, s, data, hash, written, delivered);
    case ReadAck => ReadAckKeepsInv(config, s);
    case ReadAckFails => ReadAckFailsKeepsInv(config, s);
    case ReceiveHeader => ReceiveHeaderKeepsInv(config, s);
    case ReceiveHeaderFails => ReceiveHeaderFailsKeepsInv(config, s);
    case ReceiveChunk(saveOk) => ReceiveChunkKeepsInv(config, s, saveOk);
    case ReceiveChunkFails(index, delivered) => ReceiveChunkFailsKeepsInv(config, s, index, delivered);
    case ReceiveEof => ReceiveEofKeepsInv(config, s);
    case WriteAck(delivered) => WriteAckKeepsInv(config, s, delivered);
    case Cut(keepToReceiver, keepToSender) => CutKeepsInv(config, s, keepToReceiver, keepToSender);
  }

  lemma {:induction false} RunKeepsInv(config: Config, store: map<nat, Bytes>, actions: seq<Action>)
    ensures Inv(config, Run(config, store, actions))
  {
    if actions != [] {
      RunKeepsInv(config, store, actions[..|actions| - 1]);
      StepKeepsInv(config, Run(config, store, actions[..|actions| - 1]), actions[|actions| - 1]);
    }
  }

  // ----- results

  /** In every reachable state of every run the receiver has taken over a prefix of the chunks sent, in
      order and with their bytes, and it is level with the acks the sender has read or one ahead. */
  lemma SavedIsPrefix(config: Config, store: map<nat, Bytes>, actions: seq<Action>)
    ensures var s := Run(config, store, actions);
            && s.saved <= s.sent
            && s.acked <= |s.saved| <= s.acked + 1
            && (forall i | 0 <= i < |s.sent| :: s.sent[i].index == i)
            && (config.hasStore ==>
                  forall i | 0 <= i < |s.saved| :: i in s.store && s.store[i] == s.sent[i].data)
  {
    RunKeepsInv(config, store, actions);
  }

  /** The sender never looks at the index of an ack, and need not: a positive ack that it reads answers
      the chunk it has just sent, and that chunk has been taken over. */
  lemma AckAnswersLastChunk(config: Config, store: map<nat, Bytes>, actions: seq<Action>)
    ensures var s := Run(config, store, actions);
            s.sender.ReadingAck? && s.toSender != [] && s.toSender[0].accepted ==>
              && s.toSender[0].index == s.sender.i
              && |s.sent| == |s.saved| == s.sender.i + 1 && s.saved[s.sender.i] == s.sent[s.sender.i]
  {
    RunKeepsInv(config, store, actions);
  }

  /** The receiver's store holds every chunk that was sent. */
  ghost predicate AllStored(config: Config, s: State) {
    && |s.sent| == (if config.totalChunks <= 0 then 0 else config.totalChunks)
    && forall i | 0 <= i < |s.sent| :: i in s.store && s.store[i] == s.sent[i].data
  }

  ghost predicate SuccessMeansStored(config: Config) {
    forall store, actions ::
      Run(config, store, actions).sender == Returned(true) ==> AllStored(config, Run(config, store, actions))
  }

  /** If the receiver has a store, SendFile returns nil only when all totalChunks chunks are saved. */
  lemma NilMeansAllSaved(config: Config, store: map<nat, Bytes>, actions: seq<Action>)
    requires config.hasStore
    requires Run(config, store, actions).sender == Returned(true)
    ensures AllStored(config, Run(config, store, actions))
  {
    RunKeepsInv(config, store, actions);
  }

  /** In every reachable state each saved chunk has the hash it was sent with, if one was given; so does
      each chunk that gets a positive ack, and after a nil return every chunk sent. */
  lemma HashesAreVerified(config: Config, store: map<nat, Bytes>, actions: seq<Action>)
    ensures var s := Run(config, store, actions);
            && (forall i | 0 <= i < |s.saved| :: s.saved[i].hash == "" || config.digest(s.saved[i].data) == s.saved[i].hash)
            && (forall k | 0 <= k < |s.toSender| && s.toSender[k].accepted ::
                  var i := s.toSender[k].index;
                  i < |s.sent| && (s.sent[i].hash == "" || config.digest(s.sent[i].data) == s.sent[i].hash))
            && (s.sender == Returned(true) ==>
                  forall i | 0 <= i < |s.sent| :: s.sent[i].hash == "" || config.digest(s.sent[i].data) == s.sent[i].hash)
  {
    RunKeepsInv(config, store, actions);
    var s := Run(config, store, actions);
    assert forall i | 0 <= i < |s.saved| :: s.saved[i] == s.sent[i];
  }

  lemma StoppedStays(config: Config, s: State, a: Action)
    requires s.receiver.Stopped?
    ensures var s' := Step(config, s, a);
            s'.receiver.Stopped? && s'.saved == s.saved && s'.store == s.store && |s'.sent| >= |s.sent|
  {
  }

  lemma {:induction false} StoppedForGood(config: Config, store: map<nat, Bytes>, actions: seq<Action>, later: seq<Action>)
    requires Run(config, store, actions).receiver.Stopped?
    ensures var s, s' := Run(config, store, actions), Run(config, store, actions + later);
            s'.receiver.Stopped? && s'.saved == s.saved && s'.store == s.store && |s'.sent| >= |s.sent|
  {
    if later == [] {
      assert actions + later == actions;
    } else {
      hide Run, Step;
      var before, a := later[..|later| - 1], later[|later| - 1];
      StoppedForGood(config, store, actions, before);
      assert actions + later == actions + before + [a];
      RunOneMore(config, store, actions + before, a);
      StoppedStays(config, Run(config, store, actions + before), a);
    }
  }

  lemma RunOneMore(config: Config, store: map<nat, Bytes>, actions: seq<Action>, a: Action)
    ensures Run(config, store, actions + [a]) == Step(config, Run(config, store, actions), a)
  {
    assert (actions + [a])[..|actions|] == actions;
  }

  /** A chunk with a wrong hash is refused: the answer is negative, neither it nor any later chunk is
      saved, and SendFile never returns nil. */
  lemma WrongHashEndsTransfer(config: Config, store: map<nat, Bytes>, actions: seq<Action>, saveOk: bool, later: seq<Action>)
    requires var s := Run(config, store, actions);
             && s.receiver == ReadingChunk && s.toReceiver != [] && s.toReceiver[0].ChunkMessage?
             && s.toReceiver[0].chunk.hash != "" && config.digest(s.toReceiver[0].chunk.data) != s.toReceiver[0].chunk.hash
    ensures var s, refused := Run(config, store, actions), actions + [ReceiveChunk(saveOk)];
            && Run(config, store, refused).toSender
               == s.toSender + (if s.cut then [] else [Ack(s.toReceiver[0].chunk.index, false)])
            && var s' := Run(config, store, refused + later);
               s'.saved == s.saved && s'.store == s.store && s'.sender != Returned(true)
  {
    var s, refused := Run(config, store, actions), actions + [ReceiveChunk(saveOk)];
    RunKeepsInv(config, store, actions);
    assert |s.sent| > |s.saved|;
    assert refused[..|refused| - 1] == actions;
    assert Run(config, store, refused) == Step(config, s, ReceiveChunk(saveOk));
    hide Run;
    StoppedForGood(config, store, refused, later);
    RunKeepsInv(config, store, refused + later);
  }

  lemma OnlyReceivingSaves(config: Config, s: State, a: Action)
    ensures var s' := Step(config, s, a);
            || (s'.saved == s.saved && s'.store == s.store)
            || (&& a.ReceiveChunk? && s.receiver.ReadingChunk? && s.toReceiver != [] && s.toReceiver[0].ChunkMessage?
                && var chunk := s.toReceiver[0].chunk;
                   && s'.saved == s.saved + [chunk]
                   && s'.store == if config.hasStore then s.store[chunk.index := chunk.data] else s.store)
  {
  }

  lemma NextToSave(config: Config, s: State)
    requires Inv(config, s) && s.toReceiver != [] && s.toReceiver[0].ChunkMessage?
    ensures s.toReceiver[0].chunk.index == |s.saved|
  {
  }

  /** A step saves nothing, or the next chunk. */
  lemma StepSavesNext(config: Config, s: State, a: Action)
    requires Inv(config, s)
    ensures var s', n := Step(config, s, a), |s.saved|;
            || (s'.saved == s.saved && s'.store == s.store)
            || (&& |s'.saved| == n + 1 && s'.saved[..n] == s.saved
                && s'.store == if config.hasStore then s.store[n := s'.saved[n].data] else s.store)
  {
    hide Step, Inv;
    OnlyReceivingSaves(config, s, a);
    if s.toReceiver != [] && s.toReceiver[0].ChunkMessage? {
      NextToSave(config, s);
    }
  }

  ghost predicate HoldsSavedOnly(config: Config, store: map<nat, Bytes>, s: State) {
    forall i: nat ::
      if config.hasStore && i < |s.saved| then i in s.store && s.store[i] == s.saved[i].data
      else (i in s.store <==> i in store) && (i in store ==> s.store[i] == store[i])
  }

  /** Nothing but the saved chunks ever reaches the store. */
  lemma {:induction false} StoreHoldsNothingElse(config: Config, store: map<nat, Bytes>, actions: seq<Action>)
    ensures HoldsSavedOnly(config, store, Run(config, store, actions))
  {
    if actions != [] {
      var before, a := actions[..|actions| - 1], actions[|actions| - 1];
      StoreHoldsNothingElse(config, store, before);
      RunKeepsInv(config, store, before);
      StepSavesNext(config, Run(config, store, before), a);
      hide Step, Inv;
      SavingKeepsRest(config, store, Run(config, store, before), Run(config, store, actions));
    }
  }

  lemma SavingKeepsRest(config: Config, store: map<nat, Bytes>, s: State, s': State)
    requires HoldsSavedOnly(config, store, s)
    requires || (s'.saved == s.saved && s'.store == s.store)
             || (&& |s'.saved| == |s.saved| + 1 && s'.saved[..|s.saved|] == s.saved
                 && s'.store == if config.hasStore then s.store[|s.saved| := s'.saved[|s.saved|].data] else s.store)
    ensures HoldsSavedOnly(config, store, s')
  {
    forall i: nat | i < |s.saved| ensures |s'.saved| > i && s'.saved[i] == s.saved[i] {
      assert s.saved[i] == s'.saved[..|s.saved|][i];
    }
  }

  // ----- the undisturbed run

  /** Reading, sending, saving and acknowledging one chunk without trouble. */
  function Exchange(data: Bytes, hash: string): seq<Action> {
    [WriteChunk(data, hash, true, true), ReceiveChunk(true), WriteAck(true), ReadAck]
  }

  function CleanRun(chunks: seq<(Bytes, string)>): seq<Action> {
    if chunks == [] then [WriteHeader(true, true), ReceiveHeader] else
      CleanRun(chunks[..|chunks| - 1]) + Exchange(chunks[|chunks| - 1].0, chunks[|chunks| - 1].1)
  }

  lemma {:induction false} RunConcat(config: Config, store: map<nat, Bytes>, a: seq<Action>, b: seq<Action>)
    ensures Run(config, store, a + b) == Continue(config, Run(config, store, a), b)
  {
    if b == [] {
      assert a + b == a;
    } else {
      hide Run, Step;
      var before, last := b[..|b| - 1], b[|b| - 1];
      RunConcat(config, store, a, before);
      assert a + b == a + before + [last];
      RunOneMore(config, store, a + before, last);
    }
  }

  function Continue(config: Config, s: State, actions: seq<Action>): State {
    if actions == [] then s else
      Step(config, Continue(config, s, actions[..|actions| - 1]), actions[|actions| - 1])
  }

  /** After n undisturbed exchanges both parties wait at chunk n with nothing under way. */
  ghost predicate InStep(config: Config, s: State, store: map<nat, Bytes>, chunks: seq<(Bytes, string)>) {
    && s.sender == NextChunk(config, |chunks|)
    && (|chunks| == 0 || |chunks| < config.totalChunks ==> s.receiver == ReadingChunk)
    && s.toReceiver == [] && s.toSender == [] && !s.cut
    && |s.sent| == |chunks| && s.acked == |chunks|
    && (forall i | 0 <= i < |chunks| :: s.sent[i].data == chunks[i].0)
    && (forall i :: i in s.store <==> i in store || (config.hasStore && 0 <= i < |chunks|))
  }

  lemma FourSteps(config: Config, s: State, a: seq<Action>)
    requires |a| == 4
    ensures Continue(config, s, a) == Step(config, Step(config, Step(config, Step(config, s, a[0]), a[1]), a[2]), a[3])
  {
    assert a[..3][..2] == a[..2] && a[..2][..1] == a[..1] && a[..1][..0] == [];
    assert Continue(config, s, []) == s;
    assert Continue(config, s, a[..1]) == Step(config, s, a[0]);
    assert Continue(config, s, a[..2]) == Step(config, Continue(config, s, a[..1]), a[1]);
    assert Continue(config, s, a[..3]) == Step(config, Continue(config, s, a[..2]), a[2]);
  }

  lemma CleanExchange(config: Config, s: State, data: Bytes, hash: string)
    requires s.sender.WritingChunk? && s.receiver == ReadingChunk
    requires s.toReceiver == [] && s.toSender == [] && !s.cut
    requires hash == "" || config.digest(data) == hash
    ensures var i := s.sender.i;
            var chunk := Chunk(i, data, hash, i == config.totalChunks - 1);
            Continue(config, s, Exchange(data, hash)) ==
            s.(sender := NextChunk(config, i + 1), acked := s.acked + 1,
               receiver := if chunk.isLast then Stopped else ReadingChunk,
               store := if config.hasStore then s.store[i := data] else s.store,
               sent := s.sent + [chunk], saved := s.saved + [chunk])
  {
    FourSteps(config, s, Exchange(data, hash));
    hide Continue;
  }

  lemma ExchangeStaysInStep(config: Config, s: State, store: map<nat, Bytes>, chunks: seq<(Bytes, string)>,
                            data: Bytes, hash: string)
    requires InStep(config, s, store, chunks) && |chunks| < config.totalChunks
    requires hash == "" || config.digest(data) == hash
    ensures InStep(config, Continue(config, s, Exchange(data, hash)), store, chunks + [(data, hash)])
  {
    CleanExchange(config, s, data, hash);
    hide Continue;
  }

  /** If nothing fails and every hash given is right, SendFile sends any chunks and returns nil. */
  lemma {:induction false} CleanRunSucceeds(config: Config, store: map<nat, Bytes>, chunks: seq<(Bytes, string)>)
    requires |chunks| <= config.totalChunks || (chunks == [] && config.totalChunks <= 0)
    requires forall i | 0 <= i < |chunks| :: chunks[i].1 == "" || config.digest(chunks[i].0) == chunks[i].1
    ensures InStep(config, Run(config, store, CleanRun(chunks)), store, chunks)
    ensures |chunks| == config.totalChunks ==> Run(config, store, CleanRun(chunks)).sender == Returned(true)
  {
    if chunks == [] {
      var both := [WriteHeader(true, true), ReceiveHeader];
      assert both[..1] == [WriteHeader(true, true)] && both[..1][..0] == [];
      assert Run(config, store, []) == Start(store);
      assert Run(config, store, both[..1]) == Step(config, Start(store), both[0]);
      assert Run(config, store, both) == Step(config, Run(config, store, both[..1]), both[1]);
    } else {
      var n := |chunks| - 1;
      CleanRunSucceeds(config, store, chunks[..n]);
      RunConcat(config, store, CleanRun(chunks[..n]), Exchange(chunks[n].0, chunks[n].1));
      ExchangeStaysInStep(config, Run(config, store, CleanRun(chunks[..n])), store, chunks[..n], chunks[n].0, chunks[n].1);
      assert chunks[..n] + [chunks[n]] == chunks;
    }
  }

  /** A store at the receiver is exactly what the guarantee needs: without one, chunks are acknowledged
      and dropped. */
  lemma SuccessMeansStoredIff(config: Config)
    requires config.totalChunks > 0
    ensures SuccessMeansStored(config) <==> config.hasStore
  {
    if config.hasStore {
      forall store, actions | Run(config, store, actions).sender == Returned(true)
        ensures AllStored(config, Run(config, store, actions))
      {
        NilMeansAllSaved(config, store, actions);
      }
    } else {
      var chunks := seq(config.totalChunks, _ => ([], ""));
      CleanRunSucceeds(config, map[], chunks);
      assert 0 !in Run(config, map[], CleanRun(chunks)).store;
    }
  }
}
