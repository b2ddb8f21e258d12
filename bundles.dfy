/**
 * What the core's components share about a bundle: its id, the flags and blocks
 * the protocol steps look at, the status reports they produce and the tag map
 * every bundle carries.
 */
module Bundles {
  import opened Wrappers
  import opened Eids
  import Tags

  /** A bundle id (BundleId.getBidString). */
  type BundleId = string

  /** The bundle processing control flags of the primary block that the steps test. */
  datatype BundleFlag = DeletionReport | ForwardReport | DeliveryReport | ReceptionReport

  /** The block processing control flags of a canonical block that the steps test. */
  datatype BlockFlag = TransmitStatusReportIfNotProcessed | DeleteBundleIfNotProcessed | DiscardIfNotProcessed

  datatype Block = Block(blockType: int, flags: set<BlockFlag>)

  /** The status report reason codes the steps use (section 6.1.1 of RFC 9171). */
  datatype ReasonCode = NoAdditionalInformation | LifetimeExpired | NoKnownRouteForDestination | BlockUnintelligible

  /** The four status assertions of a status report (section 6.1.1 of RFC 9171). */
  datatype StatusAssertion =
    | ReportingNodeReceivedBundle
    | ReportingNodeForwardedBundle
    | ReportingNodeDeliveredBundle
    | ReportingNodeDeletedBundle

  /**
   * A status report about bundle `subject` (whose source was `subjectSource`),
   * carried by a new bundle addressed to `destination`.
   */
  datatype StatusReport = StatusReport(destination: Uri, assertion: StatusAssertion, reason: ReasonCode,
                                       subject: BundleId, subjectSource: Uri)

  /** What the steps attach to a tag: a reason code or the list of pending status reports. */
  datatype Attachment = Reason(code: ReasonCode) | Reports(reports: seq<StatusReport>)

  /** The answer of the local eid table for an eid. */
  datatype LookUpResult = EidIsNotLocal | EidMatchAARegistration | EidMatchOther

  /** The kind of local eid that isEidLocal matches: a registration, a node id or alias, a link-local CLA eid. */
  datatype LocalEid = RegisteredEid | NodeIdEid | LinkLocalEid

  /**
   * isEidLocal's nullable answer read as a lookup result: null (None) is "not
   * local", a registration is an AA match, and the other two match otherwise.
   */
  function LookUpOf(answer: Option<LocalEid>): (r: LookUpResult)
    ensures r == EidIsNotLocal <==> answer.None?
    ensures r == EidMatchAARegistration <==> answer == Some(RegisteredEid)
  {
    match answer
    case None => EidIsNotLocal
    case Some(RegisteredEid) => EidMatchAARegistration
    case Some(_) => EidMatchOther
  }

  const IN_STORAGE: string := "in_storage"
  const REASON_CODE: string := "reason_code"
  const STATUS_REPORTS: string := "status-reports"

  class Bundle {
    const bid: BundleId
    var source: Uri
    const destination: Uri
    const reportTo: Uri
    const flags: set<BundleFlag>
    var blocks: seq<Block>
    /** The tags of the bundle (Bundle extends Tag in the source). */
    const tags: Tags.Tagged<Attachment>
    /** clearBundle() has released the bundle's blocks. */
    var cleared: bool

    constructor(bid: BundleId, source: Uri, destination: Uri, reportTo: Uri, flags: set<BundleFlag>, blocks: seq<Block>)
      ensures this.bid == bid && this.source == source && this.destination == destination
      ensures this.reportTo == reportTo && this.flags == flags && this.blocks == blocks
      ensures fresh(tags) && tags.attachment == map[] && !cleared
    {
      this.bid := bid;
      this.source := source;
      this.destination := destination;
      this.reportTo := reportTo;
      this.flags := flags;
      this.blocks := blocks;
      tags := new Tags.Tagged();
      cleared := false;
    }

    predicate GetV7Flag(f: BundleFlag)
      reads this
    {
      f in flags
    }

    method SetSource(eid: Uri)
      modifies this
      ensures source == eid && blocks == old(blocks) && cleared == old(cleared)
    {
      source := eid;
    }

    /** delBlock(block): the first block equal to it leaves the list. */
    method DelBlock(block: Block)
      modifies this
      ensures blocks == RemoveFirst(old(blocks), block)
      ensures source == old(source) && cleared == old(cleared)
    {
      blocks := RemoveFirst(blocks, block);
    }

    method ClearBundle()
      modifies this
      ensures cleared && source == old(source) && blocks == old(blocks)
    {
      cleared := true;
    }
  }

  /** List.remove(Object): the first element equal to x is dropped, if any. */
  function RemoveFirst<T(==)>(s: seq<T>, x: T): (r: seq<T>)
    ensures x !in s ==> r == s
    ensures x in s ==> |r| == |s| - 1 && multiset(r) == multiset(s) - multiset{x}
  {
    if s == [] then []
    else if s[0] == x then
      assert s == [s[0]] + s[1..];
      s[1..]
    else
      assert s == [s[0]] + s[1..];
      [s[0]] + RemoveFirst(s[1..], x)
  }
}
