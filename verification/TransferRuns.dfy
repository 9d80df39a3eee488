/** The guarantees of the transfer protocol over every run from genesis. */
module TransferRuns {
  import opened Wrappers
  import opened Ledger
  import opened TransferProtocol
  import opened TransferInvariant
  import opened TransferSteps
  import opened TransferSafety

  // ------------------------------------------------------- conservation

  ghost predicate SameSupply(s: State, s': State, d: Denom) {
    Supply(s.bank, d) == Supply(s'.bank, d)
  }

  lemma SendSupply(s: State, path: Path, c: Coin, sender: Place, net: Net, d: Denom)
    requires sender != InFlight && Ics20Send(s, path, c, sender, net).Done?
    ensures SameSupply(s, Ics20Send(s, path, c, sender, net).value, d)
  {
    MoveKeepsSupply(s.bank, sender, InFlight, c, d);
  }

  lemma {:induction false} RouteSupply(s: State, items: seq<RouteItem>, d: Denom)
    requires RouteIBCTransfers(s, items).Done?
    ensures SameSupply(s, RouteIBCTransfers(s, items).value, d)
    decreases |items|
  {
    if items != [] {
      var item := items[0];
      if item.id in s.pending && item.assetOk && Move(s.bank, Locked, IbcAccount, s.pending[item.id]).Some? {
        MoveKeepsSupply(s.bank, Locked, IbcAccount, s.pending[item.id], d);
      }
      RouteSupply(RouteOne(s, item).value, items[1..], d);
    }
  }

  ghost predicate SenderKeepsSupply(send: Sender, d: Denom) {
    forall s, id :: SameSupply(s, send(s, id).0, d)
  }

  lemma CachedSenderSupply(nets: TransferId -> Net, d: Denom)
    ensures SenderKeepsSupply(CachedSender(nets), d)
  {
    forall s, id ensures SameSupply(s, CachedSender(nets)(s, id).0, d) {
      assert CachedSender(nets)(s, id) == SendCached(s, id, nets(id));
      if SendCached(s, id, nets(id)).1 {
        MoveKeepsSupply(s.bank, IbcAccount, InFlight, s.transfers[id].coin, d);
      }
    }
  }

  lemma {:induction false} SendQueuedSupply(s: State, limit: nat, send: Sender, d: Denom)
    requires SenderKeepsSupply(send, d)
    ensures SameSupply(s, SendQueued(s, limit, send).0, d)
    decreases limit
  {
    if limit > 0 && s.queue != [] {
      var s0 := s.(queue := s.queue[1..]);
      var s1 := send(s0, s.queue[0]).0;
      assert SameSupply(s0, s1, d);
      SendQueuedSupply(s1, limit - 1, send, d);
    }
  }

  lemma {:induction false} RelockSupply(s: State, failed: seq<TransferId>, assetOk: TransferId -> bool, d: Denom)
    requires RelockAll(s, failed, assetOk).Done?
    ensures SameSupply(s, RelockAll(s, failed, assetOk).value, d)
    decreases |failed|
  {
    if failed != [] {
      MoveKeepsSupply(s.bank, IbcAccount, Locked, s.transfers[failed[0]].coin, d);
      RelockSupply(RelockOne(s, failed[0], assetOk(failed[0])).value, failed[1..], assetOk, d);
    }
  }

  lemma SettleSupply(s: State, p: PacketId, success: bool, assetOk: bool, d: Denom)
    requires Settle(s, p, success, assetOk).Done?
    ensures SameSupply(s, Settle(s, p, success, assetOk).value, d)
  {
    var packet := s.packets[p];
    var to := if success then Delivered else packet.sender;
    MoveKeepsSupply(s.bank, InFlight, to, packet.coin, d);
    var s1 := s.(packets := s.packets - {p}, bank := Move(s.bank, InFlight, to, packet.coin).value);
    if !success {
      if p in s.seqIds {
        MoveKeepsSupply(s1.bank, IbcAccount, Locked, s.transfers[s.seqIds[p]].coin, d);
      } else if p in s.seqMsgs {
        MoveKeepsSupply(s1.bank, IbcAccount, Locked, packet.coin, d);
      }
    }
  }

  lemma RetrySupply(s: State, id: TransferId, chainOk: bool, assetOk: bool, net: Net, d: Denom)
    requires RetryIBCTransfer(s, id, chainOk, assetOk, net).Done?
    ensures SameSupply(s, RetryIBCTransfer(s, id, chainOk, assetOk, net).value, d)
  {
    var c := s.transfers[id].coin;
    MoveKeepsSupply(s.bank, Locked, IbcAccount, c, d);
    MoveKeepsSupply(Move(s.bank, Locked, IbcAccount, c).value, IbcAccount, InFlight, c, d);
  }

  lemma RouteMessageSupply(s: State, id: MessageId, path: Option<Path>, valid: bool, assetOk: bool, net: Net, d: Denom)
    requires RouteMessage(s, id, path, valid, assetOk, net).Done?
    ensures SameSupply(s, RouteMessage(s, id, path, valid, assetOk, net).value, d)
  {
    var c := SentCoin(s.messages[id]);
    var from := if s.messages[id].asset.Some? then Locked else Outside;
    MoveKeepsSupply(s.bank, from, IbcAccount, c, d);
    MoveKeepsSupply(Move(s.bank, from, IbcAccount, c).value, IbcAccount, InFlight, c, d);
  }

  lemma ReceiveSupply(s: State, token: Coin, toIbc: bool, assetOk: bool, memo: Memo, d: Denom)
    requires Receive(s, token, toIbc, assetOk, memo).Done?
    ensures SameSupply(s, Receive(s, token, toIbc, assetOk, memo).value, d)
  {
    if toIbc {
      MoveKeepsSupply(s.bank, Outside, IbcAccount, token, d);
      var s1 := s.(bank := Move(s.bank, Outside, IbcAccount, token).value);
      HandleMemoSupply(s1, token, assetOk, memo, d);
    }
  }

  lemma HandleMemoSupply(s: State, token: Coin, assetOk: bool, memo: Memo, d: Denom)
    requires HandleMemo(s, token, assetOk, memo).Done?
    ensures SameSupply(s, HandleMemo(s, token, assetOk, memo).value, d)
  {
    DeductFeeSupply(s, token, memo.fee, d);
    var (s1, rest) := DeductFee(s, token, memo.fee).value;
    StoreMessageSupply(s1, rest, memo.kind == GeneralMessageWithToken, memo.id, d);
  }

  lemma DeductFeeSupply(s: State, token: Coin, fee: Option<Fee>, d: Denom)
    requires DeductFee(s, token, fee).Done?
    ensures SameSupply(s, DeductFee(s, token, fee).value.0, d)
  {
    if fee.Some? {
      MoveKeepsSupply(s.bank, IbcAccount, Outside, Coin(token.denom, fee.value.amount.value), d);
    }
  }

  lemma StoreMessageSupply(s: State, rest: Coin, withToken: bool, id: MessageId, d: Denom)
    requires StoreMessage(s, rest, withToken, id).Done?
    ensures SameSupply(s, StoreMessage(s, rest, withToken, id).value, d)
  {
    if withToken {
      MoveKeepsSupply(s.bank, IbcAccount, Locked, rest, d);
    }
  }

  lemma EndBlockerSupply(s: State, limit: nat, nets: TransferId -> Net, assetOk: TransferId -> bool, d: Denom)
    requires EndBlocker(s, limit, nets, assetOk).Done?
    ensures SameSupply(s, EndBlocker(s, limit, nets, assetOk).value, d)
  {
    CachedSenderSupply(nets, d);
    SendQueuedSupply(s, limit, CachedSender(nets), d);
    var (s1, failed) := SendQueued(s, limit, CachedSender(nets));
    RelockSupply(s1, failed, assetOk, d);
  }

  lemma DepositSupply(s: State, c: Coin, d: Denom)
    requires NexusDeposit(s, c).Done?
    ensures SameSupply(s, NexusDeposit(s, c).value, d)
  {
    MoveKeepsSupply(s.bank, Outside, Locked, c, d);
  }

  lemma PayOutSupply(s: State, id: TransferId, d: Denom)
    requires NexusPayOut(s, id).Done?
    ensures SameSupply(s, NexusPayOut(s, id).value, d)
  {
    MoveKeepsSupply(s.bank, Locked, Outside, s.pending[id], d);
  }

  lemma NewMessageSupply(s: State, id: MessageId, asset: Option<Coin>, d: Denom)
    requires NexusNewMessage(s, id, asset).Done?
    ensures SameSupply(s, NexusNewMessage(s, id, asset).value, d)
  {
    if asset.Some? {
      MoveKeepsSupply(s.bank, Outside, Locked, asset.value, d);
    }
  }

  /** No entry point creates or destroys coins, whatever state it starts in. */
  lemma StepKeepsSupply(s: State, e: Event, d: Denom)
    ensures SameSupply(s, Step(s, e), d)
  {
    if Attempt(s, e).Done? {
      match e
      case OpenChannel(_) =>
      case Deposit(c) => DepositSupply(s, c, d);
      case PayOut(id) => PayOutSupply(s, id, d);
      case NewMessage(id, asset) => NewMessageSupply(s, id, asset, d);
      case UserSend(path, c, net) => SendSupply(s, path, c, Outside, net, d);
      case RouteTransfers(items) => RouteSupply(s, items, d);
      case EndBlock(limit, nets, relockOk) => EndBlockerSupply(s, limit, nets, relockOk, d);
      case SettlePacket(p, success, assetOk) => SettleSupply(s, p, success, assetOk, d);
      case Retry(id, chainOk, assetOk, net) => RetrySupply(s, id, chainOk, assetOk, net, d);
      case RouteMsg(id, path, valid, assetOk, net) => RouteMessageSupply(s, id, path, valid, assetOk, net, d);
      case Recv(c, toIbc, assetOk, memo) => ReceiveSupply(s, c, toIbc, assetOk, memo, d);
    }
  }

  // ---------------------------------------------------------- invariant

  ghost predicate KeepsInv(r: Outcome<State>) {
    (r.Done? ==> Inv(r.value)) == true
  }

  /** What the bank, IBC and nexus do. */
  lemma OthersKeepInv(s: State, e: Event)
    requires Inv(s) && (e.OpenChannel? || e.Deposit? || e.PayOut? || e.NewMessage? || e.UserSend?)
    ensures KeepsInv(Attempt(s, e))
  {
    if Attempt(s, e).Done? {
      match e
      case OpenChannel(path) => OpenChannelSafe(s, path);
      case Deposit(c) => DepositSound(s, c, Ids(s.queue));
      case PayOut(id) => PayOutSound(s, id, Ids(s.queue));
      case NewMessage(id, asset) => NewMessageSafe(s, id, asset);
      case UserSend(path, c, net) => ForeignSendSound(s, path, c, net, Ids(s.queue));
    }
  }

  lemma EndBlockerKeepsInv(s: State, limit: nat, nets: TransferId -> Net, relockOk: TransferId -> bool)
    requires Inv(s)
    ensures KeepsInv(EndBlocker(s, limit, nets, relockOk))
  {
    EndBlockerSafe(s, limit, nets, relockOk);
  }

  lemma SettleKeepsInv(s: State, p: PacketId, success: bool, assetOk: bool)
    requires Inv(s)
    ensures KeepsInv(Settle(s, p, success, assetOk))
  {
    SettleSafe(s, p, success, assetOk);
  }

  lemma RetryKeepsInv(s: State, id: TransferId, chainOk: bool, assetOk: bool, net: Net)
    requires Inv(s)
    ensures KeepsInv(RetryIBCTransfer(s, id, chainOk, assetOk, net))
  {
    RetrySafe(s, id, chainOk, assetOk, net);
  }

  lemma RoutingKeepsInv(s: State, id: MessageId, path: Option<Path>, valid: bool, assetOk: bool, net: Net)
    requires Inv(s)
    ensures KeepsInv(RouteMessage(s, id, path, valid, assetOk, net))
  {
    RouteMessageSafe(s, id, path, valid, assetOk, net);
  }

  lemma ReceiveKeepsInv(s: State, c: Coin, toIbc: bool, assetOk: bool, memo: Memo)
    requires Inv(s)
    ensures KeepsInv(Receive(s, c, toIbc, assetOk, memo))
  {
    ReceiveSafe(s, c, toIbc, assetOk, memo);
  }

  lemma AttemptKeepsInv(s: State, e: Event)
    requires Inv(s)
    ensures KeepsInv(Attempt(s, e))
  {
    match e
    case RouteTransfers(items) => RouteSafe(s, items);
    case EndBlock(limit, nets, relockOk) => EndBlockerKeepsInv(s, limit, nets, relockOk);
    case SettlePacket(p, success, assetOk) => SettleKeepsInv(s, p, success, assetOk);
    case Retry(id, chainOk, assetOk, net) => RetryKeepsInv(s, id, chainOk, assetOk, net);
    case RouteMsg(id, path, valid, assetOk, net) => RoutingKeepsInv(s, id, path, valid, assetOk, net);
    case Recv(c, toIbc, assetOk, memo) => ReceiveKeepsInv(s, c, toIbc, assetOk, memo);
    case _ => OthersKeepInv(s, e);
  }

  lemma StepKeepsInv(s: State, e: Event)
    requires Inv(s)
    ensures Inv(Step(s, e))
  {
    AttemptKeepsInv(s, e);
  }

  lemma OpenChannelSafe(s: State, path: Path)
    requires Inv(s) && path !in s.nextSeq
    ensures Inv(s.(nextSeq := s.nextSeq[path := 1]))
  {
    var s' := s.(nextSeq := s.nextSeq[path := 1]);
    assert PacketLinks(s'.packets, s'.nextSeq, s'.seqIds, s'.seqMsgs);
    forall d ensures FundsOf(s', Ids(s.queue), d) {
      assert FundsOf(s, Ids(s.queue), d);
    }
  }

  /** No coin is in flight before the first packet. */
  ghost predicate Clean(b: Bank) {
    forall d :: Balance(b, InFlight, d) == 0
  }

  lemma GenesisInv(b: Bank)
    requires Clean(b)
    ensures Inv(Genesis(b))
  {
    forall d ensures FundsOf(Genesis(b), {}, d) {
    }
    assert Ids([]) == {};
  }

  lemma {:induction false} RunKeepsInv(b: Bank, es: seq<Event>)
    requires Clean(b)
    ensures Inv(Run(Genesis(b), es))
    decreases |es|
  {
    if es == [] {
      GenesisInv(b);
    } else {
      RunKeepsInv(b, es[..|es| - 1]);
      StepKeepsInv(Run(Genesis(b), es[..|es| - 1]), es[|es| - 1]);
    }
  }

  /** Per asset, the coins in all places add up to the same amount for ever. */
  lemma {:induction false} RunKeepsSupply(s: State, es: seq<Event>, d: Denom)
    ensures Supply(Run(s, es).bank, d) == Supply(s.bank, d)
    decreases |es|
  {
    if es != [] {
      RunKeepsSupply(s, es[..|es| - 1], d);
      StepKeepsSupply(Run(s, es[..|es| - 1]), es[|es| - 1], d);
    }
  }

  // --------------------------------------------------------- guarantees

  /** `id` is queued, in one packet, failed or completed, and in only one of these. */
  ghost predicate InOnePlace(s: State, id: TransferId)
    requires id in s.transfers
  {
    var t := s.transfers[id];
    && (id in s.queue ==> t.status == Pending && forall p :: !Carries(s.seqIds, p, id))
    && (forall p :: Carries(s.seqIds, p, id) ==>
          && t.status == Pending && p in s.packets && s.packets[p] == Packet(IbcAccount, t.coin) && p.path == t.path
          && forall p' :: Carries(s.seqIds, p', id) ==> p' == p)
    && (t.status == Pending && id !in s.queue ==> exists p :: Carries(s.seqIds, p, id))
  }

  /** The ledger holds what the tables say: in the IBC account, in flight, in the escrow, delivered. */
  lemma {:induction false} TransfersAreBacked(b: Bank, es: seq<Event>, d: Denom)
    requires Clean(b)
    ensures var s := Run(Genesis(b), es);
      && Total(WaitingCoins(s.transfers, Ids(s.queue)), d) <= Balance(s.bank, IbcAccount, d)
      && Total(PacketCoins(s.packets), d) == Balance(s.bank, InFlight, d)
      && Claims(s, d) <= Balance(s.bank, Locked, d)
      && Total(CoinsWith(s.transfers, Completed), d) <= Balance(s.bank, Delivered, d)
      && Supply(s.bank, d) == Supply(b, d)
  {
    var s := Run(Genesis(b), es);
    RunKeepsInv(b, es);
    assert FundsOf(s, Ids(s.queue), d);
    RunKeepsSupply(Genesis(b), es, d);
  }

  lemma {:induction false} TransferLifecycle(b: Bank, es: seq<Event>, id: TransferId)
    requires Clean(b) && id in Run(Genesis(b), es).transfers
    ensures InOnePlace(Run(Genesis(b), es), id)
  {
    RunKeepsInv(b, es);
    var s := Run(Genesis(b), es);
    assert id in s.queue <==> id in Ids(s.queue);
  }

  /** The two sequence maps never share a packet, and every mapped packet is still unsettled. */
  lemma {:induction false} SequencesAreUnambiguous(b: Bank, es: seq<Event>, p: PacketId)
    requires Clean(b)
    ensures var s := Run(Genesis(b), es);
      && !(p in s.seqIds && p in s.seqMsgs)
      && (p in s.seqIds || p in s.seqMsgs <==> p in s.packets && s.packets[p].sender == IbcAccount)
  {
    RunKeepsInv(b, es);
    var s := Run(Genesis(b), es);
    assert p in s.seqIds ==> Carries(s.seqIds, p, s.seqIds[p]);
    assert p in s.seqMsgs ==> CarriesMessage(s.seqMsgs, p, s.seqMsgs[p]);
  }

  /** In every run the end-blocker is rolled back only for an asset that is not recognised any more. */
  lemma {:induction false} EndBlockerNeverLacksFunds(b: Bank, es: seq<Event>, limit: nat, nets: TransferId -> Net, relockOk: TransferId -> bool)
    requires Clean(b)
    ensures var s := Run(Genesis(b), es);
      var n := if limit < |s.queue| then limit else |s.queue|;
      var r := EndBlocker(s, limit, nets, relockOk);
      if exists f :: f in SendQueued(s, limit, CachedSender(nets)).1 && !relockOk(f) then r == Panic
      else r.Done? && r.value.queue == s.queue[n..]
  {
    RunKeepsInv(b, es);
    EndBlockerSafe(Run(Genesis(b), es), limit, nets, relockOk);
  }

  /** A settlement changes the status of the one item its packet carries and of nothing else. */
  lemma SettlesOneItem(s: State, p: PacketId, success: bool, assetOk: bool)
    requires Inv(s) && Settle(s, p, success, assetOk).Done?
    ensures var s' := Settle(s, p, success, assetOk).value;
      && s'.transfers == (if p in s.seqIds && s.seqIds[p] in s.transfers
                          then s.transfers[s.seqIds[p] := s.transfers[s.seqIds[p]].(status := if success then Completed else Failed)]
                          else s.transfers)
      && s'.messages == (if p in s.seqMsgs && s.seqMsgs[p] in s.messages
                         then s.messages[s.seqMsgs[p] := s.messages[s.seqMsgs[p]].(status := if success then Executed else NotExecuted)]
                         else s.messages)
      && s'.packets == s.packets - {p} && s'.seqIds == s.seqIds - {p} && s'.seqMsgs == s.seqMsgs - {p}
      && s'.queue == s.queue && s'.pending == s.pending && s'.nextId == s.nextId && s'.nextSeq == s.nextSeq
  {
    PacketIsFunded(s, p, Ids(s.queue));
    if p in s.seqIds {
      MappedFacts(s, p, Ids(s.queue));
      SettleTransferIs(s, p, success, assetOk);
    } else if p in s.seqMsgs {
      assert CarriesMessage(s.seqMsgs, p, s.seqMsgs[p]);
      SettleMessageIs(s, p, success, assetOk);
    } else {
      SettleForeignIs(s, p, success, assetOk);
    }
  }

  /** The hooks do nothing for a packet that is in no table. */
  lemma HooksIgnore(s: State, p: PacketId)
    requires p !in s.packets && p !in s.seqIds && p !in s.seqMsgs
    ensures SetRoutedPacketCompleted(s, p) == Done(s)
    ensures forall c, ok :: SetRoutedPacketFailed(s, p, c, ok) == Done(s)
    ensures forall success, ok :: Step(s, SettlePacket(p, success, ok)) == s
  {
  }

  /** After a settlement a second one, in whichever way, changes nothing. */
  lemma SettledOnce(s: State, p: PacketId, success: bool, assetOk: bool)
    requires Inv(s) && Settle(s, p, success, assetOk).Done?
    ensures var s' := Settle(s, p, success, assetOk).value;
      && p !in s'.packets && p !in s'.seqIds && p !in s'.seqMsgs
      && SetRoutedPacketCompleted(s', p) == Done(s')
      && (forall c, ok :: SetRoutedPacketFailed(s', p, c, ok) == Done(s'))
      && (forall again, ok :: Step(s', SettlePacket(p, again, ok)) == s')
  {
    SettlesOneItem(s, p, success, assetOk);
    HooksIgnore(Settle(s, p, success, assetOk).value, p);
  }

  // ------------------------------------------------ completed is final

  ghost predicate StaysCompleted(s: State, s': State, id: TransferId) {
    id in s.transfers && s.transfers[id].status == Completed ==>
      id in s'.transfers && s'.transfers[id] == s.transfers[id]
  }

  lemma {:induction false} RouteKeepsCompleted(s: State, items: seq<RouteItem>, id: TransferId)
    requires RouteIBCTransfers(s, items).Done?
    ensures StaysCompleted(s, RouteIBCTransfers(s, items).value, id)
    decreases |items|
  {
    if items != [] {
      RouteKeepsCompleted(RouteOne(s, items[0]).value, items[1..], id);
    }
  }

  ghost predicate SenderKeepsTransfers(send: Sender) {
    forall s, id :: send(s, id).0.transfers == s.transfers
  }

  lemma {:induction false} SendQueuedKeepsTransfers(s: State, limit: nat, send: Sender)
    requires SenderKeepsTransfers(send)
    ensures SendQueued(s, limit, send).0.transfers == s.transfers
    decreases limit
  {
    if limit > 0 && s.queue != [] {
      SendQueuedKeepsTransfers(send(s.(queue := s.queue[1..]), s.queue[0]).0, limit - 1, send);
    }
  }

  lemma {:induction false} RelockKeepsCompleted(s: State, failed: seq<TransferId>, assetOk: TransferId -> bool, id: TransferId)
    requires RelockAll(s, failed, assetOk).Done?
    ensures StaysCompleted(s, RelockAll(s, failed, assetOk).value, id)
    decreases |failed|
  {
    if failed != [] {
      RelockKeepsCompleted(RelockOne(s, failed[0], assetOk(failed[0])).value, failed[1..], assetOk, id);
    }
  }

  lemma CachedSenderKeepsTransfers(nets: TransferId -> Net)
    ensures SenderKeepsTransfers(CachedSender(nets))
  {
    forall s, id ensures CachedSender(nets)(s, id).0.transfers == s.transfers {
      assert CachedSender(nets)(s, id) == SendCached(s, id, nets(id));
    }
  }

  lemma EndBlockerKeepsCompleted(s: State, limit: nat, nets: TransferId -> Net, assetOk: TransferId -> bool, id: TransferId)
    requires EndBlocker(s, limit, nets, assetOk).Done?
    ensures StaysCompleted(s, EndBlocker(s, limit, nets, assetOk).value, id)
  {
    CachedSenderKeepsTransfers(nets);
    SendQueuedKeepsTransfers(s, limit, CachedSender(nets));
    var (s1, failed) := SendQueued(s, limit, CachedSender(nets));
    RelockKeepsCompleted(s1, failed, assetOk, id);
  }

  lemma ReceiveKeepsTransfers(s: State, c: Coin, toIbc: bool, assetOk: bool, memo: Memo)
    requires Receive(s, c, toIbc, assetOk, memo).Done?
    ensures Receive(s, c, toIbc, assetOk, memo).value.transfers == s.transfers
  {
    if toIbc {
      ReceiveKeeps(s, c, assetOk, memo);
    }
  }

  lemma DepositKeepsTransfers(s: State, c: Coin)
    ensures NexusDeposit(s, c).Done? ==> NexusDeposit(s, c).value.transfers == s.transfers
  {
  }

  lemma PayOutKeepsTransfers(s: State, id: TransferId)
    ensures NexusPayOut(s, id).Done? ==> NexusPayOut(s, id).value.transfers == s.transfers
  {
  }

  lemma NewMessageKeepsTransfers(s: State, id: MessageId, asset: Option<Coin>)
    ensures NexusNewMessage(s, id, asset).Done? ==> NexusNewMessage(s, id, asset).value.transfers == s.transfers
  {
  }

  lemma UserSendKeepsTransfers(s: State, path: Path, c: Coin, net: Net)
    ensures var r := Ics20Send(s, path, c, Outside, net); r.Done? ==> r.value.transfers == s.transfers
  {
  }

  lemma StepKeepsCompleted(s: State, e: Event, id: TransferId)
    ensures StaysCompleted(s, Step(s, e), id)
  {
    if Attempt(s, e).Done? {
      match e
      case RouteTransfers(items) => RouteKeepsCompleted(s, items, id);
      case EndBlock(limit, nets, relockOk) => EndBlockerKeepsCompleted(s, limit, nets, relockOk, id);
      case SettlePacket(p, success, assetOk) => SettleKeepsCompleted(s, p, success, assetOk, id);
      case Retry(x, chainOk, assetOk, net) => RetryKeepsCompleted(s, x, chainOk, assetOk, net, id);
      case RouteMsg(x, path, valid, assetOk, net) => RouteMessageKeepsTransfers(s, x, path, valid, assetOk, net);
      case Recv(c, toIbc, assetOk, memo) => ReceiveKeepsTransfers(s, c, toIbc, assetOk, memo);
      case OpenChannel(path) =>
      case Deposit(c) => DepositKeepsTransfers(s, c);
      case PayOut(x) => PayOutKeepsTransfers(s, x);
      case NewMessage(x, asset) => NewMessageKeepsTransfers(s, x, asset);
      case UserSend(path, c, net) => UserSendKeepsTransfers(s, path, c, net);
    }
  }

  lemma SettleKeepsCompleted(s: State, p: PacketId, success: bool, assetOk: bool, id: TransferId)
    requires Settle(s, p, success, assetOk).Done?
    ensures StaysCompleted(s, Settle(s, p, success, assetOk).value, id)
  {
    var packet := s.packets[p];
    var s0 := s.(packets := s.packets - {p});
    if success {
      CompletionKeepsCompleted(MoveCoin(s0, InFlight, Delivered, packet.coin).value, p, id);
    } else {
      FailureKeepsCompleted(MoveCoin(s0, InFlight, packet.sender, packet.coin).value, p, packet.coin, assetOk, id);
    }
  }

  lemma CompletionKeepsCompleted(s: State, p: PacketId, id: TransferId)
    requires SetRoutedPacketCompleted(s, p).Done?
    ensures StaysCompleted(s, SetRoutedPacketCompleted(s, p).value, id)
  {
  }

  lemma FailureKeepsCompleted(s: State, p: PacketId, c: Coin, assetOk: bool, id: TransferId)
    requires SetRoutedPacketFailed(s, p, c, assetOk).Done?
    ensures StaysCompleted(s, SetRoutedPacketFailed(s, p, c, assetOk).value, id)
  {
  }

  lemma RetryKeepsCompleted(s: State, x: TransferId, chainOk: bool, assetOk: bool, net: Net, id: TransferId)
    requires RetryIBCTransfer(s, x, chainOk, assetOk, net).Done?
    ensures StaysCompleted(s, RetryIBCTransfer(s, x, chainOk, assetOk, net).value, id)
  {
  }

  lemma RouteMessageKeepsTransfers(s: State, x: MessageId, path: Option<Path>, valid: bool, assetOk: bool, net: Net)
    requires RouteMessage(s, x, path, valid, assetOk, net).Done?
    ensures RouteMessage(s, x, path, valid, assetOk, net).value.transfers == s.transfers
  {
    var b0, b, p := RouteMessageIs(s, x, path, valid, assetOk, net);
  }

  /** A completed transfer is never failed, retried or sent again. */
  lemma {:induction false} CompletedIsFinal(s: State, es: seq<Event>, id: TransferId)
    ensures StaysCompleted(s, Run(s, es), id)
    decreases |es|
  {
    if es != [] {
      CompletedIsFinal(s, es[..|es| - 1], id);
      StepKeepsCompleted(Run(s, es[..|es| - 1]), es[|es| - 1], id);
    }
  }
}
