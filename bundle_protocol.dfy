/**
 * Bundle processing as section 5 of RFC 9171 lays it out: transmission,
 * dispatching, forwarding, reception, local delivery, deletion and discarding,
 * with the status reports each step may produce. A bundle's progress is kept in
 * its tags; what the processor asks of other components (routing, delivery,
 * storage) is recorded as actions, and their answers are parameters.
 *
 * Each step is a method on the processor and is proved against a pure function
 * of the same name on a snapshot of the bundle and the processor.
 */
module BundleProtocols {
  import opened Wrappers
  import opened Eids
  import opened Bundles
  import Tags
  import opened RoutingEngines

  /** The three retention tags (their string values are not part of this model; only their distinctness matters). */
  const DISPATCH_PENDING: string := "dispatch_pending"
  const FORWARD_PENDING: string := "forward_pending"
  const DELIVERY_PENDING: string := "delivery_pending"
  const PENDING: set<string> := {DISPATCH_PENDING, FORWARD_PENDING, DELIVERY_PENDING}

  /**
   * What the processor asks of the node: its node id, which eids are node ids
   * (isEidNodeId answers non-null), the local eid table's answer for an eid,
   * the two configuration switches, the block types the extension manager has a
   * processor for, and whether a block's reception processing throws.
   */
  datatype Node = Node(nodeId: Uri, nodeIds: set<Uri>, lookUp: Uri -> LookUpResult,
                       reporting: bool, forwarding: bool,
                       processors: set<int>, processingFails: Block -> bool)

  /** How the asynchronous requests made for this bundle turn out. */
  datatype Outcomes = Outcomes(routed: RouteOutcome, delivered: bool, stored: bool)

  /** What the processor asks of the other components, in order. */
  datatype Action =
    | RouteRequested(bid: BundleId)
    | DeliveryRequested(localMatch: LookUpResult, bid: BundleId)
    | StoreRequested(bid: BundleId)
    | DeliverLater(bid: BundleId)
    | RemoveRequested(bid: BundleId)
    | ReportSent(report: StatusReport, source: Uri)

  /** The parts of a bundle no step changes. */
  datatype Header = Header(bid: BundleId, destination: Uri, reportTo: Uri, flags: set<BundleFlag>)

  /** The parts of a bundle the steps change, and the actions recorded so far. */
  datatype State = State(tags: map<string, Option<Attachment>>, blocks: seq<Block>, source: Uri,
                         cleared: bool, sent: seq<Action>)

  // ----- status reports -----

  /** The bundle processing flag that asks for a report of each assertion. */
  function AssertionFlag(a: StatusAssertion): BundleFlag
  {
    match a
    case ReportingNodeDeletedBundle => DeletionReport
    case ReportingNodeForwardedBundle => ForwardReport
    case ReportingNodeReceivedBundle => ReceptionReport
    case ReportingNodeDeliveredBundle => DeliveryReport
  }

  /**
   * createStatusReport's selection: no report when the report-to eid is dtn:none
   * or when the bundle does not ask for this assertion.
   */
  function ReportFor(h: Header, source: Uri, a: StatusAssertion, reason: ReasonCode): (r: Option<StatusReport>)
    ensures r.None? <==> IsNullEid(h.reportTo) || AssertionFlag(a) !in h.flags
    ensures r.Some? ==> r.value.destination == h.reportTo && r.value.assertion == a && r.value.reason == reason
    ensures r.Some? ==> r.value.subject == h.bid && r.value.subjectSource == source
  {
    if IsNullEid(h.reportTo) then None
    else if AssertionFlag(a) !in h.flags then None
    else Some(StatusReport(h.reportTo, a, reason, h.bid, source))
  }

  /** The reports waiting under the status-reports tag. */
  function ReportsOf(m: map<string, Option<Attachment>>): seq<StatusReport>
  {
    if STATUS_REPORTS in m && m[STATUS_REPORTS].Some? && m[STATUS_REPORTS].value.Reports?
    then m[STATUS_REPORTS].value.reports else []
  }

  /** The report appended to the list under the status-reports tag, the list created if absent. */
  function AddReport(m: map<string, Option<Attachment>>, report: StatusReport): (r: map<string, Option<Attachment>>)
    ensures ReportsOf(r) == ReportsOf(m) + [report]
    ensures r.Keys == m.Keys + {STATUS_REPORTS}
    ensures forall k :: k in m && k != STATUS_REPORTS ==> r[k] == m[k]
  {
    m[STATUS_REPORTS := Some(Reports(ReportsOf(m) + [report]))]
  }

  function Report(h: Header, s: State, a: StatusAssertion, reason: ReasonCode): (r: State)
    ensures r.(tags := s.tags) == s
  {
    match ReportFor(h, s.source, a, reason)
    case None => s
    case Some(report) => s.(tags := AddReport(s.tags, report))
  }

  /** Sending each report in turn, from the node id. */
  function Sends(reports: seq<StatusReport>, from: Uri): (r: seq<Action>)
    ensures |r| == |reports|
    ensures forall i :: 0 <= i < |r| ==> r[i] == ReportSent(reports[i], from)
  {
    seq(|reports|, i requires 0 <= i < |reports| => ReportSent(reports[i], from))
  }

  // ----- the steps, on values -----

  /** End of processing: every waiting report is sent, with the node id as source. */
  function ProcessingEnded(n: Node, h: Header, s: State): (r: State)
    ensures r.(sent := s.sent) == s && s.sent <= r.sent
  {
    s.(sent := s.sent + Sends(ReportsOf(s.tags), n.nodeId))
  }

  /** 5.11: the storage is asked to remove the bundle, the bundle is cleared. */
  function Discarding(n: Node, h: Header, s: State): (r: State)
    ensures r.tags == s.tags && r.blocks == s.blocks && r.source == s.source && r.cleared
    ensures s.sent <= r.sent && |r.sent| > |s.sent| && r.sent[|s.sent|] == RemoveRequested(h.bid)
  {
    ProcessingEnded(n, h, s.(cleared := true, sent := s.sent + [RemoveRequested(h.bid)]))
  }

  /** 5.10: a deletion report if asked for, then the three retention tags go and the bundle is discarded. */
  function Deletion(n: Node, h: Header, s: State): (r: State)
    ensures r.blocks == s.blocks && r.source == s.source && r.cleared
    ensures r.tags.Keys !! PENDING
    ensures forall k :: k !in PENDING && k != STATUS_REPORTS ==> (k in r.tags <==> k in s.tags)
    ensures s.sent <= r.sent && |r.sent| > |s.sent| && r.sent[|s.sent|] == RemoveRequested(h.bid)
  {
    var s1 := if DeletionReport in h.flags && n.reporting then Report(h, s, ReportingNodeDeletedBundle, NoAdditionalInformation) else s;
    Discarding(n, h, s1.(tags := s1.tags - PENDING))
  }

  /** 5.4 step 5: the forward-pending tag goes, a forwarding report is made if asked for, the bundle is discarded. */
  function ForwardingSuccessful(n: Node, h: Header, s: State): (r: State)
    ensures r.blocks == s.blocks && r.source == s.source && r.cleared && s.sent <= r.sent
  {
    Discarding(n, h, Report(h, s.(tags := s.tags - {FORWARD_PENDING}), ReportingNodeForwardedBundle, NoAdditionalInformation))
  }

  /**
   * 5.4.2 step 2: a bundle for a local destination loses its forward-pending tag
   * and is discarded; any other bundle is deleted.
   */
  function ForwardingFailed(n: Node, h: Header, s: State): (r: State)
    ensures r.blocks == s.blocks && r.source == s.source && r.cleared && s.sent <= r.sent
  {
    if n.lookUp(h.destination) != EidIsNotLocal then Discarding(n, h, s.(tags := s.tags - {FORWARD_PENDING}))
    else Deletion(n, h, s)
  }

  /** 5.4: dispatch-pending becomes forward-pending, the routing engine is asked, and its answer decides. */
  function Forwarding(n: Node, h: Header, s: State, routed: RouteOutcome): (r: State)
    ensures r.blocks == s.blocks && r.source == s.source
    ensures s.sent <= r.sent && |r.sent| > |s.sent| && r.sent[|s.sent|] == RouteRequested(h.bid)
  {
    var s1 := s.(tags := Tags.Attach(s.tags - {DISPATCH_PENDING}, FORWARD_PENDING, None),
                 sent := s.sent + [RouteRequested(h.bid)]);
    match routed
    case Ok(Forwarded) => ForwardingSuccessful(n, h, s1)
    case Ok(CustodyRefused) => ForwardingFailed(n, h, s1)
    case Ok(CustodyAccepted) => ProcessingEnded(n, h, s1)
    case Err(_) => ForwardingFailed(n, h, s1)
  }

  /** 5.2: a source that is one of the node's ids becomes the node id; the bundle is then forwarded. */
  function Transmission(n: Node, h: Header, s: State, routed: RouteOutcome): (r: State)
    ensures r.blocks == s.blocks && s.sent <= r.sent
  {
    var source := if !IsNullEid(s.source) && s.source in n.nodeIds then n.nodeId else s.source;
    Forwarding(n, h, s.(source := source, tags := Tags.Attach(s.tags, DISPATCH_PENDING, None)), routed)
  }

  /** 5.7 step 3: delivered; a delivery report if asked for, then the bundle is deleted. */
  function LocalDeliverySuccessful(n: Node, h: Header, s: State): (r: State)
    ensures r.blocks == s.blocks && r.source == s.source && r.cleared && s.sent <= r.sent
  {
    var s1 := s.(tags := s.tags - {DELIVERY_PENDING});
    var s2 := if DeliveryReport in h.flags && n.reporting then Report(h, s1, ReportingNodeDeliveredBundle, NoAdditionalInformation) else s1;
    Deletion(n, h, s2)
  }

  /**
   * Delivery failed: a bundle not in storage is stored (the storage tags it
   * "in_storage") and kept for later delivery, or deleted when storing fails; a
   * stored bundle is kept for later delivery.
   */
  function LocalDeliveryFailure(n: Node, h: Header, s: State, stored: bool): (r: State)
    ensures r.blocks == s.blocks && r.source == s.source && s.sent <= r.sent
  {
    if IN_STORAGE !in s.tags then
      var s1 := s.(sent := s.sent + [StoreRequested(h.bid)]);
      if stored then
        ProcessingEnded(n, h, s1.(tags := Tags.Attach(s1.tags, IN_STORAGE, None), sent := s1.sent + [DeliverLater(h.bid)]))
      else Deletion(n, h, s1)
    else s.(sent := s.sent + [DeliverLater(h.bid)])
  }

  /** 5.7: delivery-pending is tagged and the registrar is asked to deliver. */
  function LocalDelivery(n: Node, h: Header, s: State, localMatch: LookUpResult, out: Outcomes): (r: State)
    ensures r.blocks == s.blocks && r.source == s.source
    ensures s.sent <= r.sent && |r.sent| > |s.sent| && r.sent[|s.sent|] == DeliveryRequested(localMatch, h.bid)
  {
    var s1 := s.(tags := Tags.Attach(s.tags, DELIVERY_PENDING, None),
                 sent := s.sent + [DeliveryRequested(localMatch, h.bid)]);
    if out.delivered then LocalDeliverySuccessful(n, h, s1) else LocalDeliveryFailure(n, h, s1, out.stored)
  }

  /**
   * 5.3: a local destination goes to delivery; otherwise the bundle is forwarded
   * when forwarding is enabled and deleted with NoKnownRouteForDestination when not.
   */
  function Dispatching(n: Node, h: Header, s: State, out: Outcomes): (r: State)
    ensures r.blocks == s.blocks && r.source == s.source && s.sent <= r.sent
  {
    var isLocal := n.lookUp(h.destination);
    if isLocal != EidIsNotLocal then LocalDelivery(n, h, s, isLocal, out)
    else if n.forwarding then Forwarding(n, h, s, out.routed)
    else Deletion(n, h, s.(tags := Tags.Attach(s.tags, REASON_CODE, Some(Reason(NoKnownRouteForDestination)))))
  }

  /** 5.5: tagged LifetimeExpired and deleted. */
  function Expired(n: Node, h: Header, s: State): (r: State)
    ensures r.blocks == s.blocks && r.source == s.source && r.cleared && s.sent <= r.sent
  {
    Deletion(n, h, s.(tags := Tags.Attach(s.tags, REASON_CODE, Some(Reason(LifetimeExpired)))))
  }

  /** A block that makes the bundle be deleted on reception. */
  predicate Triggers(n: Node, block: Block)
  {
    if block.blockType in n.processors then n.processingFails(block)
    else DeleteBundleIfNotProcessed in block.flags
  }

  /** A block that is dropped on reception. */
  predicate Dropped(n: Node, block: Block)
  {
    block.blockType !in n.processors && DeleteBundleIfNotProcessed !in block.flags && DiscardIfNotProcessed in block.flags
  }

  /** The report an unprocessable block asks for, if the bundle asks for reception reports. */
  function UnintelligibleReports(n: Node, h: Header, s: State, block: Block): seq<StatusReport>
  {
    if TransmitStatusReportIfNotProcessed in block.flags && n.reporting && ReceptionReport in h.flags && !IsNullEid(h.reportTo)
    then [StatusReport(h.reportTo, ReportingNodeReceivedBundle, BlockUnintelligible, h.bid, s.source)]
    else []
  }

  /**
   * 5.6 step 3 for one block: a block with a processor is processed, and a
   * failure asks for deletion; a block without one may ask for a report, for the
   * bundle's deletion or for its own removal. The flag says whether deletion is asked.
   */
  function ReceiveBlock(n: Node, h: Header, s: State, block: Block): (r: (State, bool))
    ensures r.0.source == s.source && r.0.sent == s.sent && r.0.cleared == s.cleared
    ensures r.1 <==> Triggers(n, block)
    ensures !r.1 ==> r.0.blocks == if Dropped(n, block) then RemoveFirst(s.blocks, block) else s.blocks
    ensures block.blockType in n.processors ==> r.0 == s
    ensures block.blockType !in n.processors ==> ReportsOf(r.0.tags) == ReportsOf(s.tags) + UnintelligibleReports(n, h, s, block)
    ensures block.blockType !in n.processors && DeleteBundleIfNotProcessed in block.flags ==>
              REASON_CODE in r.0.tags &&
              r.0.tags[REASON_CODE] == (if REASON_CODE in s.tags && s.tags[REASON_CODE].Some? then s.tags[REASON_CODE]
                                        else Some(Reason(BlockUnintelligible)))
  {
    if block.blockType in n.processors then (s, n.processingFails(block))
    else
      var s1 := if TransmitStatusReportIfNotProcessed in block.flags && n.reporting
                then Report(h, s, ReportingNodeReceivedBundle, BlockUnintelligible) else s;
      if DeleteBundleIfNotProcessed in block.flags then
        (s1.(tags := Tags.Attach(s1.tags, REASON_CODE, Some(Reason(BlockUnintelligible)))), true)
      else if DiscardIfNotProcessed in block.flags then
        (s1.(blocks := RemoveFirst(s1.blocks, block)), false)
      else (s1, false)
  }

  /** The blocks in turn, until one asks for deletion. */
  function ReceiveBlocks(n: Node, h: Header, s: State, todo: seq<Block>): (r: (State, bool))
    ensures r.0.source == s.source && r.0.sent == s.sent && r.0.cleared == s.cleared
    decreases |todo|
  {
    if todo == [] then (s, false)
    else
      var (s1, deleted) := ReceiveBlock(n, h, s, todo[0]);
      if deleted then (s1, true) else ReceiveBlocks(n, h, s1, todo[1..])
  }

  /** 5.6 steps 1 and 2: dispatch-pending, and a reception report if asked for. */
  function Received(n: Node, h: Header, s: State): (r: State)
    ensures r.blocks == s.blocks && r.source == s.source && r.sent == s.sent
    ensures DISPATCH_PENDING in r.tags
  {
    var s1 := s.(tags := Tags.Attach(s.tags, DISPATCH_PENDING, None));
    if ReceptionReport in h.flags && n.reporting then Report(h, s1, ReportingNodeReceivedBundle, NoAdditionalInformation) else s1
  }

  /** 5.6 step 4: deletion when a block asked for it, dispatching otherwise. */
  function AfterBlocks(n: Node, h: Header, p: (State, bool), out: Outcomes): (r: State)
    ensures p.0.sent <= r.sent
  {
    if p.1 then Deletion(n, h, p.0) else Dispatching(n, h, p.0, out)
  }

  /** 5.6: reception, the blocks, then dispatching or deletion. */
  function Reception(n: Node, h: Header, s: State, out: Outcomes): (r: State)
    ensures s.sent <= r.sent
  {
    var s1 := Received(n, h, s);
    AfterBlocks(n, h, ReceiveBlocks(n, h, s1, s1.blocks), out)
  }

  // ----- properties of the steps -----

  /** The report a deletion adds, if any. */
  function DeletionReports(n: Node, h: Header, s: State): seq<StatusReport>
  {
    if DeletionReport in h.flags && n.reporting && !IsNullEid(h.reportTo)
    then [StatusReport(h.reportTo, ReportingNodeDeletedBundle, NoAdditionalInformation, h.bid, s.source)]
    else []
  }

  /**
   * Deletion keeps every tag other than the retention tags as it was, adds a
   * deletion report to the waiting reports when asked for, and requests removal
   * before each waiting report is sent.
   */
  lemma DeletionReleases(n: Node, h: Header, s: State)
    ensures var r := Deletion(n, h, s);
      && (forall k :: k in s.tags && k !in PENDING && k != STATUS_REPORTS ==> r.tags[k] == s.tags[k])
      && ReportsOf(r.tags) == ReportsOf(s.tags) + DeletionReports(n, h, s)
      && r.sent == s.sent + [RemoveRequested(h.bid)] + Sends(ReportsOf(r.tags), n.nodeId)
  {
  }

  /** A lifetime expiry is deleted with the reason LifetimeExpired unless a reason was already attached. */
  lemma ExpiredReason(n: Node, h: Header, s: State)
    ensures var r := Expired(n, h, s);
      && r.cleared && r.tags.Keys !! PENDING && REASON_CODE in r.tags
      && r.tags[REASON_CODE] == (if REASON_CODE in s.tags && s.tags[REASON_CODE].Some? then s.tags[REASON_CODE]
                                 else Some(Reason(LifetimeExpired)))
  {
    DeletionReleases(n, h, s.(tags := Tags.Attach(s.tags, REASON_CODE, Some(Reason(LifetimeExpired)))));
  }

  /**
   * Dispatching's first request: delivery for a local destination, routing when
   * forwarding is enabled, otherwise removal, with the reason NoKnownRouteForDestination
   * unless a reason was already attached.
   */
  lemma DispatchingFirstRequest(n: Node, h: Header, s: State, out: Outcomes)
    ensures var r := Dispatching(n, h, s, out);
      && |r.sent| > |s.sent|
      && r.sent[|s.sent|] == (if n.lookUp(h.destination) != EidIsNotLocal then DeliveryRequested(n.lookUp(h.destination), h.bid)
                              else if n.forwarding then RouteRequested(h.bid)
                              else RemoveRequested(h.bid))
    ensures n.lookUp(h.destination) == EidIsNotLocal && !n.forwarding ==>
      var r := Dispatching(n, h, s, out);
      && r.cleared && REASON_CODE in r.tags
      && r.tags[REASON_CODE] == (if REASON_CODE in s.tags && s.tags[REASON_CODE].Some? then s.tags[REASON_CODE]
                                 else Some(Reason(NoKnownRouteForDestination)))
  {
    if n.lookUp(h.destination) == EidIsNotLocal && !n.forwarding {
      DeletionReleases(n, h, s.(tags := Tags.Attach(s.tags, REASON_CODE, Some(Reason(NoKnownRouteForDestination)))));
    }
  }

  /**
   * Forwarding leaves no dispatch-pending tag; the forward-pending tag stays, and
   * the bundle stays uncleared, exactly when custody was accepted.
   */
  lemma ForwardingTags(n: Node, h: Header, s: State, routed: RouteOutcome)
    requires !s.cleared
    ensures var r := Forwarding(n, h, s, routed);
      && DISPATCH_PENDING !in r.tags
      && (FORWARD_PENDING in r.tags <==> routed == Ok(CustodyAccepted))
      && (r.cleared <==> routed != Ok(CustodyAccepted))
  {
  }

  /** Transmission: a source that is one of the node's ids is replaced by the node id, then routing is asked. */
  lemma TransmissionSource(n: Node, h: Header, s: State, routed: RouteOutcome)
    ensures var r := Transmission(n, h, s, routed);
      && r.source == (if !IsNullEid(s.source) && s.source in n.nodeIds then n.nodeId else s.source)
      && |r.sent| > |s.sent| && r.sent[|s.sent|] == RouteRequested(h.bid)
  {
  }

  /** A delivered bundle is deleted; whether it is in storage does not change. */
  lemma LocalDeliveryDelivered(n: Node, h: Header, s: State, localMatch: LookUpResult, out: Outcomes)
    requires out.delivered
    ensures var r := LocalDelivery(n, h, s, localMatch, out);
      && r.cleared && r.tags.Keys !! PENDING
      && (IN_STORAGE in r.tags <==> IN_STORAGE in s.tags)
  {
  }

  /**
   * An undelivered bundle stays delivery-pending, and is or becomes stored,
   * when it is already in storage or storing it succeeds; otherwise it is deleted.
   */
  lemma LocalDeliveryUndelivered(n: Node, h: Header, s: State, localMatch: LookUpResult, out: Outcomes)
    requires !out.delivered && !s.cleared
    ensures var r := LocalDelivery(n, h, s, localMatch, out);
      var kept := IN_STORAGE in s.tags || out.stored;
      && (r.cleared <==> !kept)
      && (DELIVERY_PENDING in r.tags <==> kept)
      && (IN_STORAGE in r.tags <==> kept)
  {
    if IN_STORAGE !in s.tags && !out.stored {
      var s1 := s.(tags := Tags.Attach(s.tags, DELIVERY_PENDING, None),
                   sent := s.sent + [DeliveryRequested(localMatch, h.bid), StoreRequested(h.bid)]);
      assert s.sent + [DeliveryRequested(localMatch, h.bid)] + [StoreRequested(h.bid)] == s1.sent;
    }
  }

  /** The blocks of `todo` that reception drops. */
  function DroppedOf(n: Node, todo: seq<Block>): (d: seq<Block>)
  {
    if todo == [] then [] else (if Dropped(n, todo[0]) then [todo[0]] else []) + DroppedOf(n, todo[1..])
  }

  /** The block loop asks for deletion exactly when one of the blocks triggers it. */
  lemma {:induction false} ReceiveBlocksDeletes(n: Node, h: Header, s: State, todo: seq<Block>)
    ensures ReceiveBlocks(n, h, s, todo).1 <==> exists i :: 0 <= i < |todo| && Triggers(n, todo[i])
    decreases |todo|
  {
    if todo != [] {
      var p := ReceiveBlock(n, h, s, todo[0]);
      if !p.1 {
        ReceiveBlocksDeletes(n, h, p.0, todo[1..]);
        if exists i :: 0 <= i < |todo| && Triggers(n, todo[i]) {
          var i :| 0 <= i < |todo| && Triggers(n, todo[i]);
          assert todo[1..][i - 1] == todo[i];
        }
      }
    }
  }

  /** Without deletion, the block loop removes exactly the dropped blocks, one occurrence each. */
  lemma {:induction false} ReceiveBlocksDrops(n: Node, h: Header, s: State, todo: seq<Block>)
    requires multiset(todo) <= multiset(s.blocks)
    ensures var p := ReceiveBlocks(n, h, s, todo);
      !p.1 ==> multiset(p.0.blocks) == multiset(s.blocks) - multiset(DroppedOf(n, todo))
    decreases |todo|
  {
    if todo != [] {
      var p := ReceiveBlock(n, h, s, todo[0]);
      if !p.1 {
        var rest := todo[1..];
        var d := if Dropped(n, todo[0]) then [todo[0]] else [];
        MultisetSplit(todo);
        ReceiveBlockDrops(n, h, s, todo[0]);
        assert ReceiveBlocks(n, h, s, todo) == ReceiveBlocks(n, h, p.0, rest);
        assert DroppedOf(n, todo) == d + DroppedOf(n, rest);
        ReceiveBlocksDrops(n, h, p.0, rest);
        var r := ReceiveBlocks(n, h, p.0, rest);
        if !r.1 {
          SubtractTwice(multiset(s.blocks), multiset(d), multiset(DroppedOf(n, rest)), multiset(r.0.blocks));
        }
      }
    }
  }

  /** One block: a dropped block loses one occurrence, any other block leaves the blocks as they were. */
  lemma ReceiveBlockDrops(n: Node, h: Header, s: State, block: Block)
    requires block in multiset(s.blocks)
    ensures var p := ReceiveBlock(n, h, s, block);
      !p.1 ==> multiset(p.0.blocks) == multiset(s.blocks) - multiset(if Dropped(n, block) then [block] else [])
  {
  }

  /** Proof helper for ReceiveBlocksDrops: removing two multisets in turn removes their sum. */
  lemma SubtractTwice<T>(a: multiset<T>, d: multiset<T>, e: multiset<T>, r: multiset<T>)
    requires r == (a - d) - e
    ensures r == a - (d + e)
  {
  }

  /** Proof helper for ReceiveBlocksDrops: a sequence's multiset is its head's plus its tail's. */
  lemma MultisetSplit<T>(xs: seq<T>)
    requires xs != []
    ensures multiset(xs) == multiset{xs[0]} + multiset(xs[1..])
  {
    assert xs == [xs[0]] + xs[1..];
  }

  /** Reception without deletion drops exactly the blocks that ask to be discarded. */
  lemma ReceptionDropsBlocks(n: Node, h: Header, s: State)
    ensures var s1 := Received(n, h, s);
      var p := ReceiveBlocks(n, h, s1, s1.blocks);
      && (p.1 <==> exists i :: 0 <= i < |s.blocks| && Triggers(n, s.blocks[i]))
      && (!p.1 ==> multiset(p.0.blocks) == multiset(s.blocks) - multiset(DroppedOf(n, s.blocks)))
  {
    var s1 := Received(n, h, s);
    ReceiveBlocksDeletes(n, h, s1, s1.blocks);
    ReceiveBlocksDrops(n, h, s1, s1.blocks);
  }

  /**
   * An unprocessable block that asks for the bundle's deletion: the bundle is
   * deleted with the reason BlockUnintelligible unless a reason was already
   * attached, and the block's report and the deletion report join the waiting ones.
   */
  lemma UnintelligibleBlockDeletes(n: Node, h: Header, s: State, block: Block, out: Outcomes)
    requires block.blockType !in n.processors && DeleteBundleIfNotProcessed in block.flags
    ensures var p := ReceiveBlock(n, h, s, block);
      var r := AfterBlocks(n, h, p, out);
      && r.cleared && r.tags.Keys !! PENDING
      && REASON_CODE in r.tags
      && r.tags[REASON_CODE] == (if REASON_CODE in s.tags && s.tags[REASON_CODE].Some? then s.tags[REASON_CODE]
                                 else Some(Reason(BlockUnintelligible)))
      && ReportsOf(r.tags) == ReportsOf(s.tags) + UnintelligibleReports(n, h, s, block) + DeletionReports(n, h, p.0)
  {
    var p := ReceiveBlock(n, h, s, block);
    DeletionReleases(n, h, p.0);
  }

  /**
   * A failed forwarding to a local destination only loses its forward-pending tag
   * and is discarded, sending the reports already waiting; to any other destination
   * the bundle is deleted, with the deletion report it asks for.
   */
  lemma ForwardingFailedOutcome(n: Node, h: Header, s: State)
    ensures n.lookUp(h.destination) != EidIsNotLocal ==>
      var r := ForwardingFailed(n, h, s);
      && r.tags == s.tags - {FORWARD_PENDING}
      && ReportsOf(r.tags) == ReportsOf(s.tags)
      && r.sent == s.sent + [RemoveRequested(h.bid)] + Sends(ReportsOf(s.tags), n.nodeId)
    ensures n.lookUp(h.destination) == EidIsNotLocal ==>
      var r := ForwardingFailed(n, h, s);
      && r.tags.Keys !! PENDING
      && ReportsOf(r.tags) == ReportsOf(s.tags) + DeletionReports(n, h, s)
      && r.sent == s.sent + [RemoveRequested(h.bid)] + Sends(ReportsOf(r.tags), n.nodeId)
  {
    if n.lookUp(h.destination) == EidIsNotLocal {
      DeletionReleases(n, h, s);
    } else {
      assert ReportsOf(s.tags - {FORWARD_PENDING}) == ReportsOf(s.tags);
    }
  }

  /**
   * The test of 5.4.2 step 2 is made on the nullable answer of the local eid
   * table: a local destination is exactly one with a non-null answer.
   */
  lemma ForwardingFailedOnLocalEid(n: Node, h: Header, s: State, answer: Option<LocalEid>)
    requires n.lookUp(h.destination) == LookUpOf(answer)
    ensures answer.Some? ==> ForwardingFailed(n, h, s) == Discarding(n, h, s.(tags := s.tags - {FORWARD_PENDING}))
    ensures answer.None? ==> ForwardingFailed(n, h, s) == Deletion(n, h, s)
  {
  }

  // ----- the processor -----

  class BundleProtocol {
    const node: Node
    /** The requests made so far, oldest first. */
    var sent: seq<Action>

    constructor(node: Node)
      ensures this.node == node && sent == []
    {
      this.node := node;
      sent := [];
    }

    function HeaderOf(b: Bundle): Header
    {
      Header(b.bid, b.destination, b.reportTo, b.flags)
    }

    function Snapshot(b: Bundle): State
      reads this, b, b.tags
    {
      State(b.tags.attachment, b.blocks, b.source, b.cleared, sent)
    }

    /** createStatusReport(assertion, bundle, reason). */
    method CreateStatusReport(a: StatusAssertion, b: Bundle, reason: ReasonCode)
      modifies b.tags
      ensures Snapshot(b) == Report(HeaderOf(b), old(Snapshot(b)), a, reason)
    {
      var selected := ReportFor(HeaderOf(b), b.source, a, reason);
      if selected.None? {
        return;
      }
      var report := selected.value;
      // the list under the status-reports tag, created and tagged when absent, gets the report
      b.tags.attachment := AddReport(b.tags.attachment, report);
    }

    /** endProcessing: each waiting report is sent from the node id. */
    method EndProcessing(b: Bundle)
      modifies this
      ensures Snapshot(b) == ProcessingEnded(node, HeaderOf(b), old(Snapshot(b)))
    {
      if b.tags.IsTagged(STATUS_REPORTS) {
        var reports := ReportsOf(b.tags.attachment);
        var i := 0;
        while i < |reports|
          invariant 0 <= i <= |reports|
          invariant sent == old(sent) + Sends(reports[..i], node.nodeId)
        {
          assert Sends(reports[..i + 1], node.nodeId) == Sends(reports[..i], node.nodeId) + [ReportSent(reports[i], node.nodeId)];
          sent := sent + [ReportSent(reports[i], node.nodeId)];
          i := i + 1;
        }
        assert reports[..i] == reports;
      }
    }

    /** bundleDiscarding. */
    method BundleDiscarding(b: Bundle)
      modifies this, b
      ensures Snapshot(b) == Discarding(node, HeaderOf(b), old(Snapshot(b)))
    {
      sent := sent + [RemoveRequested(b.bid)];
      b.ClearBundle();
      EndProcessing(b);
    }

    /** bundleDeletion. */
    method BundleDeletion(b: Bundle)
      modifies this, b, b.tags
      ensures Snapshot(b) == Deletion(node, HeaderOf(b), old(Snapshot(b)))
    {
      if b.GetV7Flag(DeletionReport) && node.reporting {
        CreateStatusReport(ReportingNodeDeletedBundle, b, NoAdditionalInformation);
      }
      ghost var tags := b.tags.attachment;
      b.tags.RemoveTag(DISPATCH_PENDING);
      b.tags.RemoveTag(FORWARD_PENDING);
      b.tags.RemoveTag(DELIVERY_PENDING);
      assert b.tags.attachment == tags - PENDING;
      BundleDiscarding(b);
    }

    /** bundleForwardingSuccessful. */
    method BundleForwardingSuccessful(b: Bundle)
      modifies this, b, b.tags
      ensures Snapshot(b) == ForwardingSuccessful(node, HeaderOf(b), old(Snapshot(b)))
    {
      b.tags.RemoveTag(FORWARD_PENDING);
      CreateStatusReport(ReportingNodeForwardedBundle, b, NoAdditionalInformation);
      BundleDiscarding(b);
    }

    /** bundleForwardingFailed: a local destination is discarded, any other deleted. */
    method BundleForwardingFailed(b: Bundle)
      modifies this, b, b.tags
      ensures Snapshot(b) == ForwardingFailed(node, HeaderOf(b), old(Snapshot(b)))
    {
      if node.lookUp(b.destination) != EidIsNotLocal {
        b.tags.RemoveTag(FORWARD_PENDING);
        BundleDiscarding(b);
      } else {
        BundleDeletion(b);
      }
    }

    /** bundleForwarding: `routed` is what the routing engine answers for the bundle. */
    method BundleForwarding(b: Bundle, routed: RouteOutcome)
      modifies this, b, b.tags
      ensures Snapshot(b) == Forwarding(node, HeaderOf(b), old(Snapshot(b)), routed)
    {
      b.tags.RemoveTag(DISPATCH_PENDING);
      b.tags.Tag(FORWARD_PENDING);
      sent := sent + [RouteRequested(b.bid)];
      match routed
      case Ok(Forwarded) =>
        BundleForwardingSuccessful(b);
      case Ok(CustodyRefused) =>
        BundleForwardingFailed(b);
      case Ok(CustodyAccepted) =>
        EndProcessing(b);
      case Err(_) =>
        BundleForwardingFailed(b);
    }

    /** bundleTransmission. */
    method BundleTransmission(b: Bundle, routed: RouteOutcome)
      modifies this, b, b.tags
      ensures Snapshot(b) == Transmission(node, HeaderOf(b), old(Snapshot(b)), routed)
    {
      if !IsNullEid(b.source) && b.source in node.nodeIds {
        b.SetSource(node.nodeId);
      }
      b.tags.Tag(DISPATCH_PENDING);
      BundleForwarding(b, routed);
    }

    /** bundleLocalDeliverySuccessful. */
    method BundleLocalDeliverySuccessful(b: Bundle)
      modifies this, b, b.tags
      ensures Snapshot(b) == LocalDeliverySuccessful(node, HeaderOf(b), old(Snapshot(b)))
    {
      b.tags.RemoveTag(DELIVERY_PENDING);
      if b.GetV7Flag(DeliveryReport) && node.reporting {
        CreateStatusReport(ReportingNodeDeliveredBundle, b, NoAdditionalInformation);
      }
      BundleDeletion(b);
    }

    /** bundleLocalDeliveryFailure: `stored` is whether the storage accepts the bundle. */
    method BundleLocalDeliveryFailure(b: Bundle, stored: bool)
      modifies this, b, b.tags
      ensures Snapshot(b) == LocalDeliveryFailure(node, HeaderOf(b), old(Snapshot(b)), stored)
    {
      if !b.tags.IsTagged(IN_STORAGE) {
        sent := sent + [StoreRequested(b.bid)];
        if stored {
          b.tags.Tag(IN_STORAGE);
          sent := sent + [DeliverLater(b.bid)];
          EndProcessing(b);
        } else {
          BundleDeletion(b);
        }
      } else {
        sent := sent + [DeliverLater(b.bid)];
      }
    }

    /** bundleLocalDelivery. */
    method BundleLocalDelivery(localMatch: LookUpResult, b: Bundle, out: Outcomes)
      modifies this, b, b.tags
      ensures Snapshot(b) == LocalDelivery(node, HeaderOf(b), old(Snapshot(b)), localMatch, out)
    {
      b.tags.Tag(DELIVERY_PENDING);
      sent := sent + [DeliveryRequested(localMatch, b.bid)];
      if out.delivered {
        BundleLocalDeliverySuccessful(b);
      } else {
        BundleLocalDeliveryFailure(b, out.stored);
      }
    }

    /** bundleDispatching. */
    method BundleDispatching(b: Bundle, out: Outcomes)
      modifies this, b, b.tags
      ensures Snapshot(b) == Dispatching(node, HeaderOf(b), old(Snapshot(b)), out)
    {
      var isLocal := node.lookUp(b.destination);
      if isLocal != EidIsNotLocal {
        BundleLocalDelivery(isLocal, b, out);
        return;
      }
      if node.forwarding {
        BundleForwarding(b, out.routed);
      } else {
        b.tags.TagWith(REASON_CODE, Some(Reason(NoKnownRouteForDestination)));
        BundleDeletion(b);
      }
    }

    /** bundleExpired. */
    method BundleExpired(b: Bundle)
      modifies this, b, b.tags
      ensures Snapshot(b) == Expired(node, HeaderOf(b), old(Snapshot(b)))
    {
      b.tags.TagWith(REASON_CODE, Some(Reason(LifetimeExpired)));
      BundleDeletion(b);
    }

    /** One pass of the block loop of bundleReception. */
    method ProcessBlock(b: Bundle, block: Block) returns (deleted: bool)
      modifies b, b.tags
      ensures (Snapshot(b), deleted) == ReceiveBlock(node, HeaderOf(b), old(Snapshot(b)), block)
    {
      deleted := false;
      if block.blockType in node.processors {
        deleted := node.processingFails(block);
      } else {
        if TransmitStatusReportIfNotProcessed in block.flags && node.reporting {
          CreateStatusReport(ReportingNodeReceivedBundle, b, BlockUnintelligible);
        }
        if DeleteBundleIfNotProcessed in block.flags {
          b.tags.TagWith(REASON_CODE, Some(Reason(BlockUnintelligible)));
          deleted := true;
        } else if DiscardIfNotProcessed in block.flags {
          b.DelBlock(block);
        }
      }
    }

    /** The block loop of bundleReception, over the blocks as they were when it began. */
    method ProcessBlocks(b: Bundle) returns (deleted: bool)
      modifies b, b.tags
      ensures (Snapshot(b), deleted) == ReceiveBlocks(node, HeaderOf(b), old(Snapshot(b)), old(b.blocks))
    {
      var blocks := b.blocks;
      var i := 0;
      deleted := false;
      while i < |blocks| && !deleted
        invariant 0 <= i <= |blocks|
        invariant !deleted ==> ReceiveBlocks(node, HeaderOf(b), Snapshot(b), blocks[i..]) == ReceiveBlocks(node, HeaderOf(b), old(Snapshot(b)), blocks)
        invariant deleted ==> (Snapshot(b), true) == ReceiveBlocks(node, HeaderOf(b), old(Snapshot(b)), blocks)
        decreases |blocks| - i
      {
        assert blocks[i..][1..] == blocks[i + 1..];
        deleted := ProcessBlock(b, blocks[i]);
        i := i + 1;
      }
      if !deleted {
        assert blocks[i..] == [];
      }
    }

    /** bundleReception. */
    method BundleReception(b: Bundle, out: Outcomes)
      modifies this, b, b.tags
      ensures Snapshot(b) == Reception(node, HeaderOf(b), old(Snapshot(b)), out)
    {
      b.tags.Tag(DISPATCH_PENDING);
      if b.GetV7Flag(ReceptionReport) && node.reporting {
        CreateStatusReport(ReportingNodeReceivedBundle, b, NoAdditionalInformation);
      }
      assert Snapshot(b) == Received(node, HeaderOf(b), old(Snapshot(b)));
      var deleted := ProcessBlocks(b);
      if deleted {
        BundleDeletion(b);
      } else {
        BundleDispatching(b, out);
      }
    }
  }
}
