/**
 * The object form of a dtn eid: a node name and a demux, and the scheme-specific
 * part "//node/demux" built from them when the eid is made.
 */
module BaseDtnEids {
  import opened Wrappers
  import opened Eids

  /** The demux as the constructor keeps it: null becomes "", and one leading "/" is dropped. */
  function NormalDemux(demux: Option<string>): (d: string)
    ensures demux.None? ==> d == ""
    ensures demux.Some? && StartsWith(demux.value, "/") ==> "/" + d == demux.value
    ensures demux.Some? && !StartsWith(demux.value, "/") ==> d == demux.value
  {
    var d := if demux.None? then "" else demux.value;
    if StartsWith(d, "/") then d[1..] else d
  }

  class BaseDtnEid {
    var ssp: string
    var nodeName: string
    var demux: string

    /** The scheme-specific part is the one the node name and demux give. */
    predicate Consistent()
      reads this
    {
      ssp == "//" + nodeName + "/" + demux
    }

    /**
     * BaseDtnEid(nodeName, demux): null parts become "", one leading "/" of the demux
     * is dropped, and the ssp is "//" + node + "/" + demux. The syntax check that
     * follows (BaseEid.checkValidity) is not part of this model.
     */
    constructor(nodeName: Option<string>, demux: Option<string>)
      ensures this.nodeName == (if nodeName.None? then "" else nodeName.value)
      ensures this.demux == NormalDemux(demux)
      ensures Consistent() && !IsNullEndPoint()
    {
      this.nodeName := if nodeName.None? then "" else nodeName.value;
      this.demux := NormalDemux(demux);
      this.ssp := "//" + (if nodeName.None? then "" else nodeName.value) + "/" + NormalDemux(demux);
      new;
      assert ssp[0] == '/';
    }

    /** nullEid(): "dtn:none", with empty node name and demux. */
    constructor Null()
      ensures ssp == "none" && nodeName == "" && demux == ""
      ensures IsNullEndPoint() && !IsAuthoritativeEid() && IsSingleton()
    {
      ssp, nodeName, demux := "none", "", "";
    }

    /** The copy constructor: the three fields of the other eid. */
    constructor Copy(o: BaseDtnEid)
      ensures ssp == o.ssp && nodeName == o.nodeName && demux == o.demux
      ensures IsNullEndPoint() == o.IsNullEndPoint() && IsSingleton() == o.IsSingleton()
      ensures IsAuthoritativeEid() == o.IsAuthoritativeEid()
    {
      ssp, nodeName, demux := o.ssp, o.nodeName, o.demux;
    }

    /**
     * copyDemux(other): takes the other eid's demux. The ssp is left as it was, so
     * it no longer names the new demux when the two differ.
     */
    method CopyDemux(other: BaseDtnEid)
      modifies this
      ensures demux == other.demux && ssp == old(ssp) && nodeName == old(nodeName)
      ensures old(Consistent()) ==> (Consistent() <==> other.demux == old(demux))
    {
      ghost var prefix := "//" + nodeName + "/";
      assert (prefix + old(demux))[|prefix|..] == old(demux);
      demux := other.demux;
      assert (prefix + demux)[|prefix|..] == demux;
    }

    predicate IsNullEndPoint()
      reads this
    {
      ssp == "none"
    }

    /** isSingleton: the demux does not start with "~". */
    predicate IsSingleton()
      reads this
    {
      !StartsWith(demux, "~")
    }

    /** isAuthoritativeEid: not the null endpoint, and no demux. */
    predicate IsAuthoritativeEid()
      reads this
    {
      !IsNullEndPoint() && demux == ""
    }

    /**
     * isAuthoritativeOver(other): this eid is authoritative and the other one is a
     * BaseDtnEid (null stands for an eid of another class) with the same node name.
     */
    predicate IsAuthoritativeOver(other: BaseDtnEid?)
      reads this, other
    {
      IsAuthoritativeEid() && other != null && nodeName == other.nodeName
    }
  }

  /** The eid made of a node name alone is authoritative over every eid of that node. */
  lemma NodeEidAuthoritative(node: BaseDtnEid, other: BaseDtnEid)
    requires node.Consistent() && node.demux == "" && node.nodeName == other.nodeName
    ensures node.IsAuthoritativeOver(other)
    ensures node.IsSingleton()
  {
    assert node.ssp[0] == '/';
  }

  /** Authority over another eid needs an authoritative eid and the same node name. */
  lemma AuthoritativeOverIff(e: BaseDtnEid, other: BaseDtnEid?)
    ensures e.IsAuthoritativeOver(other) <==>
      e.ssp != "none" && e.demux == "" && other != null && e.nodeName == other.nodeName
  {
  }
}
