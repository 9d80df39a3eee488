/**
  The IBC side of x/axelarnet as a state machine. Every step is the body of one
  entry point (a message handler, the end-blocker or an IBC callback) as a
  function from the store to the store it would commit; the environment picks
  send failures, acknowledgements, timeouts and unrecognised assets.

  Contracts of code outside the module:
  - a handler that returns an error or panics leaves the store unchanged;
  - ICS-20 `Transfer` debits the sender and uses the channel's next sequence;
  - core IBC lets a packet be acknowledged or timed out only while its
    commitment exists, and deletes the commitment when it does;
  - the ICS-20 module refunds the sender of a failed packet before the hook runs;
  - nexus locks the coins of a pending transfer, or of a message that carries an
    asset, in the step that creates it, and numbers transfers consecutively.
 */
module TransferProtocol {
  import opened Wrappers
  import opened Ledger

  type TransferId = nat
  type MessageId = string

  datatype Path = Path(port: string, channel: string)

  datatype PacketId = PacketId(path: Path, sequence: nat)

  /** A sent packet whose commitment still exists. */
  datatype Packet = Packet(sender: Place, coin: Coin)

  datatype Status = Pending | Completed | Failed

  datatype Transfer = Transfer(coin: Coin, path: Path, status: Status)

  datatype MessageStatus = Approved | Processing | Executed | NotExecuted

  datatype Message = Message(asset: Option<Coin>, status: MessageStatus)

  datatype State = State(
    bank: Bank,
    nextId: TransferId,
    pending: map<TransferId, Coin>,
    transfers: map<TransferId, Transfer>,
    queue: seq<TransferId>,
    seqIds: map<PacketId, TransferId>,
    seqMsgs: map<PacketId, MessageId>,
    messages: map<MessageId, Message>,
    nextSeq: map<Path, nat>,
    packets: map<PacketId, Packet>)

  /** How the light client, the channel and the transfer module answer a send. */
  datatype Net = NetOk | NetErr | NetPanic

  /** One pending nexus transfer of a page, with what its lookup answered. */
  datatype RouteItem = RouteItem(id: TransferId, path: Path, assetOk: bool)

  datatype MessageKind = GeneralMessage | GeneralMessageWithToken | UnknownKind

  /** `Amount` is parsed from a string; `None` is a string that does not parse. */
  datatype Fee = Fee(amount: Option<int>, recipientOk: bool)

  /** Memo of an incoming packet, with the answers of the read-only nexus checks. */
  datatype Memo = Memo(kind: MessageKind, fee: Option<Fee>, feeDenomOk: bool, routeOk: bool, id: MessageId)

  /** Dust sent along with a message that carries no asset. */
  const BOND_DENOM: Denom := "uaxl"
  const DUST := Coin(BOND_DENOM, 1)

  /** The writes of `out` reach the store only if nothing failed (`RunCached`, a transaction). */
  function Commit(s: State, out: Outcome<State>): (r: State)
    ensures r == s || out == Done(r)
  {
    if out.Done? then out.value else s
  }

  function MoveCoin(s: State, from: Place, to: Place, c: Coin): Outcome<State>
    requires from != to
  {
    match Move(s.bank, from, to, c)
    case Some(b) => Done(s.(bank := b))
    case None => Error
  }

  /** `funcs.MustNoErr`. */
  function Must(out: Outcome<State>): Outcome<State> {
    if out.Error? then Panic else out
  }

  // ---------------------------------------------------------------- keeper

  /** The status changes that `IBCTransfer.SetStatus` allows. */
  predicate AllowedChange(from: Status, to: Status) {
    match to
    case Completed => from == Pending
    case Failed => from == Pending
    case Pending => from == Failed
  }

  function SetTransferStatus(s: State, id: TransferId, to: Status): Outcome<State> {
    if id in s.transfers && AllowedChange(s.transfers[id].status, to)
    then Done(s.(transfers := s.transfers[id := s.transfers[id].(status := to)]))
    else Error
  }

  function SetMessageStatus(s: State, id: MessageId, to: MessageStatus): Outcome<State> {
    if id in s.messages && s.messages[id].status == Processing
    then Done(s.(messages := s.messages[id := s.messages[id].(status := to)]))
    else Error
  }

  function InsertSorted(q: seq<TransferId>, id: TransferId): (r: seq<TransferId>)
    ensures forall x :: x in r <==> x in q || x == id
  {
    if q == [] || id < q[0] then [id] + q
    else if id == q[0] then q
    else [q[0]] + InsertSorted(q[1..], id)
  }

  /** Stores the new transfer and its queue entry; the queue is ordered by transfer ID. */
  function EnqueueIBCTransfer(s: State, id: TransferId, c: Coin, path: Path): Outcome<State> {
    if id in s.transfers then Error
    else Done(s.(transfers := s.transfers[id := Transfer(c, path, Pending)], queue := InsertSorted(s.queue, id)))
  }

  // ------------------------------------------------------------ sending

  /** ICS-20 `Transfer`. */
  function Ics20Send(s: State, path: Path, c: Coin, sender: Place, net: Net): Outcome<State>
    requires sender != InFlight
  {
    if net == NetPanic then Panic
    else if net == NetErr || path !in s.nextSeq then Error
    else
      match Move(s.bank, sender, InFlight, c)
      case None => Error
      case Some(b) =>
        Done(s.(bank := b,
                nextSeq := s.nextSeq[path := s.nextSeq[path] + 1],
                packets := s.packets[PacketId(path, s.nextSeq[path]) := Packet(sender, c)]))
  }

  /** The mapping is written for the sequence that `Transfer` is about to use. */
  function SendIBCTransfer(s: State, id: TransferId, t: Transfer, net: Net): Outcome<State> {
    if t.path !in s.nextSeq then Error
    else
      var p := PacketId(t.path, s.nextSeq[t.path]);
      Ics20Send(s.(seqIds := s.seqIds[p := id]), t.path, t.coin, IbcAccount, net)
  }

  /** The mapping is written afterwards, for the sequence that `Transfer` reported. */
  function SendMessage(s: State, id: MessageId, path: Option<Path>, c: Coin, net: Net): Outcome<State> {
    if path.None? || path.value !in s.nextSeq then Error
    else
      var p := PacketId(path.value, s.nextSeq[path.value]);
      var s1 :- Ics20Send(s, path.value, c, IbcAccount, net);
      if p in s1.seqMsgs then Error else Done(s1.(seqMsgs := s1.seqMsgs[p := id]))
  }

  // ------------------------------------------------------- entry points

  /** One pending transfer in `RouteIBCTransfers`; a failed unlock skips it. */
  function RouteOne(s: State, item: RouteItem): Outcome<State> {
    if item.id !in s.pending || !item.assetOk then Done(s)
    else
      var c := s.pending[item.id];
      match Move(s.bank, Locked, IbcAccount, c)
      case None => Done(s)
      case Some(b) =>
        var s1 :- Must(EnqueueIBCTransfer(s.(bank := b), item.id, c, item.path));
        Done(s1.(pending := s1.pending - {item.id}))
  }

  function RouteIBCTransfers(s: State, items: seq<RouteItem>): Outcome<State>
    decreases |items|
  {
    if items == [] then Done(s)
    else
      var s1 :- RouteOne(s, items[0]);
      RouteIBCTransfers(s1, items[1..])
  }

  /** A cached send: the state it leaves and whether it succeeded. */
  type Sender = (State, TransferId) -> (State, bool)

  function SendCached(s: State, id: TransferId, net: Net): (State, bool) {
    if id !in s.transfers then (s, false)
    else
      match SendIBCTransfer(s, id, s.transfers[id], net)
      case Done(s1) => (s1, true)
      case _ => (s, false)
  }

  function CachedSender(nets: TransferId -> Net): Sender {
    (s: State, id: TransferId) => SendCached(s, id, nets(id))
  }

  /** First loop of the end-blocker: dequeue the least entry, send it, collect the failures. */
  function SendQueued(s: State, limit: nat, send: Sender): (State, seq<TransferId>)
    decreases limit
  {
    if limit == 0 || s.queue == [] then (s, [])
    else
      var (s1, sent) := send(s.(queue := s.queue[1..]), s.queue[0]);
      var (s2, failed) := SendQueued(s1, limit - 1, send);
      (s2, if sent then failed else [s.queue[0]] + failed)
  }

  /** Second loop: re-lock and mark as failed; any error here panics. */
  function RelockAll(s: State, failed: seq<TransferId>, assetOk: TransferId -> bool): Outcome<State>
    decreases |failed|
  {
    if failed == [] then Done(s)
    else
      var s1 :- RelockOne(s, failed[0], assetOk(failed[0]));
      RelockAll(s1, failed[1..], assetOk)
  }

  function RelockOne(s: State, id: TransferId, assetOk: bool): Outcome<State> {
    if id !in s.transfers || !assetOk then Panic
    else
      var s1 :- Must(MoveCoin(s, IbcAccount, Locked, s.transfers[id].coin));
      Must(SetTransferStatus(s1, id, Failed))
  }

  function EndBlocker(s: State, limit: nat, nets: TransferId -> Net, assetOk: TransferId -> bool): Outcome<State> {
    var (s1, failed) := SendQueued(s, limit, CachedSender(nets));
    RelockAll(s1, failed, assetOk)
  }

  /** Hook after a successful acknowledgement. */
  function SetRoutedPacketCompleted(s: State, p: PacketId): Outcome<State> {
    if p in s.seqIds then SetTransferStatus(s.(seqIds := s.seqIds - {p}), s.seqIds[p], Completed)
    else if p in s.seqMsgs then SetMessageStatus(s.(seqMsgs := s.seqMsgs - {p}), s.seqMsgs[p], Executed)
    else Done(s)
  }

  /** Hook after an error acknowledgement or a timeout; `c` is the coin in the packet. */
  function SetRoutedPacketFailed(s: State, p: PacketId, c: Coin, assetOk: bool): Outcome<State> {
    if p in s.seqIds then
      var id := s.seqIds[p];
      if id !in s.transfers then Panic
      else if !assetOk then Error
      else
        var s1 :- MoveCoin(s.(seqIds := s.seqIds - {p}), IbcAccount, Locked, s.transfers[id].coin);
        SetTransferStatus(s1, id, Failed)
    else if p in s.seqMsgs then
      var id := s.seqMsgs[p];
      if !assetOk then Error
      else
        var s1 :- MoveCoin(s.(seqMsgs := s.seqMsgs - {p}), IbcAccount, Locked, c);
        SetMessageStatus(s1, id, NotExecuted)
    else Done(s)
  }

  /** `OnAcknowledgementPacket` (success or error) and `OnTimeoutPacket` (error). */
  function Settle(s: State, p: PacketId, success: bool, assetOk: bool): Outcome<State> {
    if p !in s.packets || s.packets[p].sender == InFlight then Error
    else
      var packet := s.packets[p];
      var s0 := s.(packets := s.packets - {p});
      if success then
        var s1 :- MoveCoin(s0, InFlight, Delivered, packet.coin);
        SetRoutedPacketCompleted(s1, p)
      else
        var s1 :- MoveCoin(s0, InFlight, packet.sender, packet.coin);
        SetRoutedPacketFailed(s1, p, packet.coin, assetOk)
  }

  function RetryIBCTransfer(s: State, id: TransferId, chainOk: bool, assetOk: bool, net: Net): Outcome<State> {
    if id !in s.transfers || s.transfers[id].status != Failed || !chainOk || !assetOk then Error
    else
      var t := s.transfers[id];
      var s1 :- MoveCoin(s, Locked, IbcAccount, t.coin);
      var s2 :- SendIBCTransfer(s1, id, t, net);
      Must(SetTransferStatus(s2, id, Pending))
  }

  /** `RouteMessage`: mark as processing, move the asset (or dust) to the IBC account, send. */
  function RouteMessage(s: State, id: MessageId, path: Option<Path>, valid: bool, assetOk: bool, net: Net): Outcome<State> {
    if id !in s.messages || s.messages[id].status !in {Approved, NotExecuted} || !valid then Error
    else
      var m := s.messages[id];
      var s0 := s.(messages := s.messages[id := m.(status := Processing)]);
      match m.asset
      case None =>
        var s1 :- MoveCoin(s0, Outside, IbcAccount, DUST);
        SendMessage(s1, id, path, DUST, net)
      case Some(c) =>
        if !assetOk then Error
        else
          var s1 :- MoveCoin(s0, Locked, IbcAccount, c);
          SendMessage(s1, id, path, c, net)
  }

  // -------------------------------------------------- incoming messages

  predicate ValidateFee(token: Coin, kind: MessageKind, fee: Fee, denomOk: bool) {
    && fee.amount.Some? && fee.amount.value > 0 && fee.recipientOk
    && (match kind
        case GeneralMessage => token.amount - fee.amount.value >= 0
        case GeneralMessageWithToken => token.amount - fee.amount.value > 0
        case UnknownKind => false)
    && denomOk
  }

  /** Pays the fee out of the IBC account; `Sub` panics on a negative result. */
  function DeductFee(s: State, token: Coin, fee: Option<Fee>): Outcome<(State, Coin)> {
    match fee
    case None => Done((s, token))
    case Some(f) =>
      if f.amount.None? || f.amount.value < 0 || token.amount < f.amount.value then Panic
      else
        match Move(s.bank, IbcAccount, Outside, Coin(token.denom, f.amount.value))
        case None => Error
        case Some(b) => Done((s.(bank := b), Coin(token.denom, token.amount - f.amount.value)))
  }

  function SetNewMessage(s: State, id: MessageId, asset: Option<Coin>): Outcome<State> {
    if id in s.messages then Error
    else Done(s.(messages := s.messages[id := Message(asset, Approved)]))
  }

  /** `OnRecvPacket` and `OnRecvMessage`; an error acknowledgement discards the writes. */
  function Receive(s: State, token: Coin, toIbcAccount: bool, assetOk: bool, memo: Memo): Outcome<State> {
    if !toIbcAccount then Done(s)
    else
      var s1 :- MoveCoin(s, Outside, IbcAccount, token);
      HandleMemo(s1, token, assetOk, memo)
  }

  function HandleMemo(s: State, token: Coin, assetOk: bool, memo: Memo): Outcome<State> {
    if !assetOk || !memo.routeOk || memo.kind == UnknownKind then Error
    else if memo.fee.Some? && !ValidateFee(token, memo.kind, memo.fee.value, memo.feeDenomOk) then Error
    else
      var (s1, rest) :- DeductFee(s, token, memo.fee);
      StoreMessage(s1, rest, memo.kind == GeneralMessageWithToken, memo.id)
  }

  /** The tail of `handleMessage`, which ignores the coin, and of `handleMessageWithToken`. */
  function StoreMessage(s: State, rest: Coin, withToken: bool, id: MessageId): Outcome<State> {
    if !withToken then SetNewMessage(s, id, None)
    else
      var s1 :- MoveCoin(s, IbcAccount, Locked, rest);
      SetNewMessage(s1, id, Some(rest))
  }

  // ------------------------------------------------------------ the runs

  datatype Event =
    | OpenChannel(path: Path)
    | Deposit(coin: Coin)
    | PayOut(id: TransferId)
    | NewMessage(msg: MessageId, asset: Option<Coin>)
    | UserSend(path: Path, coin: Coin, net: Net)
    | RouteTransfers(items: seq<RouteItem>)
    | EndBlock(limit: nat, nets: TransferId -> Net, relockOk: TransferId -> bool)
    | SettlePacket(packet: PacketId, success: bool, assetOk: bool)
    | Retry(id: TransferId, chainOk: bool, assetOk: bool, net: Net)
    | RouteMsg(msg: MessageId, route: Option<Path>, valid: bool, assetOk: bool, net: Net)
    | Recv(coin: Coin, toIbcAccount: bool, assetOk: bool, memo: Memo)

  /** Steps of other modules: nexus books a backed claim, or pays one to an Axelar account. */
  function NexusDeposit(s: State, c: Coin): Outcome<State> {
    var s1 :- MoveCoin(s, Outside, Locked, c);
    Done(s1.(pending := s1.pending[s1.nextId := c], nextId := s1.nextId + 1))
  }

  function NexusPayOut(s: State, id: TransferId): Outcome<State> {
    if id !in s.pending then Error
    else
      var s1 :- MoveCoin(s, Locked, Outside, s.pending[id]);
      Done(s1.(pending := s1.pending - {id}))
  }

  function NexusNewMessage(s: State, id: MessageId, asset: Option<Coin>): Outcome<State> {
    match asset
    case None => SetNewMessage(s, id, None)
    case Some(c) =>
      var s1 :- MoveCoin(s, Outside, Locked, c);
      SetNewMessage(s1, id, asset)
  }

  function Attempt(s: State, e: Event): Outcome<State> {
    match e
    case OpenChannel(path) => if path in s.nextSeq then Error else Done(s.(nextSeq := s.nextSeq[path := 1]))
    case Deposit(c) => NexusDeposit(s, c)
    case PayOut(id) => NexusPayOut(s, id)
    case NewMessage(id, asset) => NexusNewMessage(s, id, asset)
    case UserSend(path, c, net) => Ics20Send(s, path, c, Outside, net)
    case RouteTransfers(items) => RouteIBCTransfers(s, items)
    case EndBlock(limit, nets, relockOk) => EndBlocker(s, limit, nets, relockOk)
    case SettlePacket(p, success, assetOk) => Settle(s, p, success, assetOk)
    case Retry(id, chainOk, assetOk, net) => RetryIBCTransfer(s, id, chainOk, assetOk, net)
    case RouteMsg(id, path, valid, assetOk, net) => RouteMessage(s, id, path, valid, assetOk, net)
    case Recv(c, toIbc, assetOk, memo) => Receive(s, c, toIbc, assetOk, memo)
  }

  function Step(s: State, e: Event): State {
    Commit(s, Attempt(s, e))
  }

  function Run(s: State, es: seq<Event>): State {
    if es == [] then s else Step(Run(s, es[..|es| - 1]), es[|es| - 1])
  }

  /** Nothing pending, queued or in flight; coins anywhere else. */
  function Genesis(b: Bank): State {
    State(b, 0, map[], map[], [], map[], map[], map[], map[], map[])
  }
}
