/**
 * The tag map every blob and bundle carries: a key is tagged once it is in the
 * map, and may carry an attachment (None stands for Java's null).
 */
module Tags {
  import opened Wrappers

  /** Map.putIfAbsent: the first value given for a key stays. */
  function PutIfAbsent<K, V>(m: map<K, V>, k: K, v: V): (r: map<K, V>)
    ensures r.Keys == m.Keys + {k}
    ensures r[k] == if k in m then m[k] else v
    ensures forall j :: j in m && j != k ==> r[j] == m[j]
  {
    if k in m then m else m[k := v]
  }

  /**
   * Map.putIfAbsent on a map whose values may be null (None): a key that is
   * absent or mapped to null takes the new value; a key with a value keeps it.
   */
  function Attach<K, V>(m: map<K, Option<V>>, k: K, v: Option<V>): (r: map<K, Option<V>>)
    ensures r.Keys == m.Keys + {k}
    ensures r[k] == if k in m && m[k].Some? then m[k] else v
    ensures forall j :: j in m && j != k ==> r[j] == m[j]
  {
    if k in m && m[k].Some? then m else m[k := v]
  }

  /** Where no null is involved, attaching is putting if absent. */
  lemma AttachWithoutNull<K, V>(m: map<K, Option<V>>, k: K, v: Option<V>)
    requires k in m ==> m[k].Some?
    ensures Attach(m, k, v) == PutIfAbsent(m, k, v)
  {
  }

  /** A plain tag does not hold its key: a later attachment replaces it. */
  lemma AttachAfterPlainTag<K, V>(m: map<K, Option<V>>, k: K, x: V)
    ensures Attach(Attach(m, k, None), k, Some(x))[k] == if k in m && m[k].Some? then m[k] else Some(x)
  {
  }

  /** The keys whose attachment is null: the plain tags. */
  function PlainTags<T>(m: map<string, Option<T>>): (s: set<string>)
  {
    set k | k in m && m[k].None?
  }

  lemma PlainTagsIff<T>(m: map<string, Option<T>>, k: string)
    ensures k in PlainTags(m) <==> k in m && m[k] == None
  {
  }

  /** Tagging a key with no attachment makes it a plain tag unless it already carried one. */
  lemma PlainTagAfterTag<T>(m: map<string, Option<T>>, k: string)
    ensures PlainTags(Attach(m, k, None)) == if k in m && m[k].Some? then PlainTags(m) else PlainTags(m) + {k}
  {
    var r := Attach(m, k, None);
    if k in m && m[k].Some? {
      assert r == m;
    } else {
      forall j | j in PlainTags(m) + {k}
        ensures j in PlainTags(r)
      {
      }
    }
  }

  /** Removing a key drops it and only it from the plain tags. */
  lemma PlainTagsAfterRemove<T>(m: map<string, Option<T>>, k: string)
    ensures PlainTags(m - {k}) == PlainTags(m) - {k}
  {
  }

  class Tagged<T> {
    var attachment: map<string, Option<T>>

    constructor()
      ensures attachment == map[]
    {
      attachment := map[];
    }

    /** tag(key): tag(key, null). */
    method Tag(key: string)
      modifies this
      ensures attachment == Attach(old(attachment), key, None)
      ensures IsTagged(key)
    {
      TagWith(key, None);
    }

    /** tag(key, o): only a key not tagged yet, or tagged without an attachment, is given o. */
    method TagWith(key: string, o: Option<T>)
      modifies this
      ensures attachment == Attach(old(attachment), key, o)
      ensures IsTagged(key)
      ensures GetTagAttachment(key) == if old(GetTagAttachment(key)).Some? then old(GetTagAttachment(key)) else o
    {
      attachment := Attach(attachment, key, o);
    }

    method RemoveTag(key: string)
      modifies this
      ensures attachment == old(attachment) - {key}
      ensures !IsTagged(key)
    {
      attachment := attachment - {key};
    }

    predicate IsTagged(key: string)
      reads this
    {
      key in attachment
    }

    /** getAllTags(): the keys tagged without an attachment. */
    function GetAllTags(): (s: set<string>)
      reads this
      ensures s <= attachment.Keys
      ensures forall k :: k in s <==> IsTagged(k) && GetTagAttachment(k) == None
    {
      PlainTags(attachment)
    }

    /** getTagAttachment(key): the attachment, or null when there is none or no such key. */
    function GetTagAttachment(key: string): (o: Option<T>)
      reads this
      ensures o.Some? ==> IsTagged(key)
    {
      if key in attachment then attachment[key] else None
    }
  }
}
