/** `serialize`: turns every ObjectId reachable through lists and dicts into
    its hexadecimal text, so that the value can be returned as JSON. */
module Serializer {
  import opened Common

  /** No ObjectId can be reached from `v` by descending into lists and dict
      values. Tuples and sets are not descended into. */
  predicate Clean(v: Value) {
    match v
    case Oid(_) => false
    case List(items) => forall i :: 0 <= i < |items| ==> Clean(items[i])
    case Dict(entries) => forall i :: 0 <= i < |entries| ==> Clean(entries[i].1)
    case _ => true
  }

  /** The keys of a dict, in insertion order. */
  function Keys(entries: seq<(string, Value)>): (ks: seq<string>)
    ensures |ks| == |entries|
    ensures forall i :: 0 <= i < |entries| ==> ks[i] == entries[i].0
  {
    seq(|entries|, i requires 0 <= i < |entries| => entries[i].0)
  }

  function Serialize(v: Value): (r: Value)
    ensures Clean(r)
    ensures v.Oid? ==> r == Str(v.hex)
    ensures v.List? ==> r.List? && |r.items| == |v.items|
    ensures v.List? ==> forall i :: 0 <= i < |v.items| ==> r.items[i] == Serialize(v.items[i])
    ensures v.Dict? ==> r.Dict? && Keys(r.entries) == Keys(v.entries)
    ensures v.Dict? ==> forall i :: 0 <= i < |v.entries| ==> r.entries[i].1 == Serialize(v.entries[i].1)
    ensures !v.Oid? && !v.List? && !v.Dict? ==> r == v
  {
    match v
    case Oid(h) => Str(h)
    case List(items) =>
      List(seq(|items|, i requires 0 <= i < |items| => Serialize(items[i])))
    case Dict(entries) =>
      Dict(seq(|entries|, i requires 0 <= i < |entries| =>
        assert entries[i] in entries; (entries[i].0, Serialize(entries[i].1))))
    case _ => v
  }

  /** A value with no reachable ObjectId comes back unchanged. */
  lemma {:induction false} SerializeFixesClean(v: Value)
    requires Clean(v)
    ensures Serialize(v) == v
  {
    match v
    case List(items) =>
      forall i | 0 <= i < |items| ensures Serialize(items[i]) == items[i] {
        SerializeFixesClean(items[i]);
      }
      assert Serialize(v).items == items;
    case Dict(entries) =>
      forall i | 0 <= i < |entries| ensures Serialize(entries[i].1) == entries[i].1 {
        assert entries[i] in entries;
        SerializeFixesClean(entries[i].1);
      }
      var r := Serialize(v).entries;
      assert Keys(r) == Keys(entries);
      forall i | 0 <= i < |entries| ensures r[i] == entries[i] {
        assert r[i].0 == Keys(r)[i];
      }
      assert r == entries;
    case _ =>
  }

  /** Serializing an already serialized value changes nothing. */
  lemma SerializeIdempotent(v: Value)
    ensures Serialize(Serialize(v)) == Serialize(v)
  {
    SerializeFixesClean(Serialize(v));
  }
}
