/**
 * The `pointers` Map of the compose canvas: pointer id to last client
 * position. A JavaScript Map iterates in insertion order and `set` on an
 * existing key keeps the key's place, so the map is a sequence of entries.
 */
module PointerMap {
  /** A client position. */
  datatype Point = Point(x: real, y: real)

  datatype Entry = Entry(id: int, pos: Point)

  /** The map's keys. */
  function Keys(m: seq<Entry>): set<int> {
    if m == [] then {} else {m[0].id} + Keys(m[1..])
  }

  /** No key occurs twice. */
  predicate Distinct(m: seq<Entry>) {
    m == [] || (m[0].id !in Keys(m[1..]) && Distinct(m[1..]))
  }

  /** Every entry's key is a key of the map. */
  lemma {:induction false} KeyAt(m: seq<Entry>, i: int)
    requires 0 <= i < |m|
    ensures m[i].id in Keys(m)
  {
    if i > 0 {
      KeyAt(m[1..], i - 1);
    }
  }

  /** In a map without repeated keys, no later entry shares the first entry's key. */
  lemma FirstKeyUnique(m: seq<Entry>, i: int)
    requires Distinct(m) && 0 < i < |m|
    ensures m[i].id != m[0].id
  {
    KeyAt(m[1..], i - 1);
  }

  /** Position of `id` in iteration order. */
  function IndexOf(m: seq<Entry>, id: int): (k: nat)
    requires id in Keys(m)
    ensures k < |m| && m[k].id == id
    ensures forall i :: 0 <= i < k ==> m[i].id != id
  {
    if m[0].id == id then 0 else 1 + IndexOf(m[1..], id)
  }

  /** `Map.prototype.set`: replace in place when present, append otherwise. */
  function Set(m: seq<Entry>, id: int, p: Point): (r: seq<Entry>)
    ensures Keys(r) == Keys(m) + {id}
    ensures id !in Keys(m) ==> r == m + [Entry(id, p)]
    ensures id in Keys(m) ==> |r| == |m|
    ensures id in Keys(m) && Distinct(m) ==>
              forall i :: 0 <= i < |m| ==> r[i] == if m[i].id == id then Entry(id, p) else m[i]
    ensures Distinct(m) ==> Distinct(r)
  {
    if m == [] then [Entry(id, p)]
    else if m[0].id == id then
      assert ([Entry(id, p)] + m[1..])[1..] == m[1..];
      assert Distinct(m) ==> forall i :: 0 < i < |m| ==> m[i].id != id by {
        if Distinct(m) {
          forall i | 0 < i < |m| ensures m[i].id != id { FirstKeyUnique(m, i); }
        }
      }
      [Entry(id, p)] + m[1..]
    else
      var rest := Set(m[1..], id, p);
      assert ([m[0]] + rest)[1..] == rest;
      assert id !in Keys(m) ==> [m[0]] + rest == m + [Entry(id, p)] by {
        assert m == [m[0]] + m[1..];
      }
      [m[0]] + rest
  }

  /** `Map.prototype.delete`: drop the entry with key `id`, keep the others in order. */
  function Delete(m: seq<Entry>, id: int): (r: seq<Entry>)
    requires Distinct(m)
    ensures Distinct(r)
    ensures Keys(r) == Keys(m) - {id}
    ensures id !in Keys(m) ==> r == m
    ensures id in Keys(m) ==> r == m[..IndexOf(m, id)] + m[IndexOf(m, id) + 1..] && |r| == |m| - 1
  {
    if m == [] then []
    else if m[0].id == id then
      DropHead(m);
      m[1..]
    else
      var rest := Delete(m[1..], id);
      ConsKeys(m, id, rest);
      ConsOrder(m, id, rest);
      [m[0]] + rest
  }

  /** Dropping the first entry of a list without repeated keys removes exactly its key. */
  lemma DropHead(m: seq<Entry>)
    requires Distinct(m) && m != []
    ensures Distinct(m[1..]) && Keys(m[1..]) == Keys(m) - {m[0].id}
    ensures m[..0] + m[1..] == m[1..]
  {
  }

  /** Putting back a first entry whose key is not `id` keeps the keys of a deletion right. */
  lemma ConsKeys(m: seq<Entry>, id: int, rest: seq<Entry>)
    requires Distinct(m) && m != [] && m[0].id != id
    requires Distinct(rest) && Keys(rest) == Keys(m[1..]) - {id}
    ensures Distinct([m[0]] + rest) && Keys([m[0]] + rest) == Keys(m) - {id}
  {
    assert ([m[0]] + rest)[1..] == rest;
  }

  /** Putting back a first entry whose key is not `id` keeps the order of a deletion right. */
  lemma ConsOrder(m: seq<Entry>, id: int, rest: seq<Entry>)
    requires m != [] && m[0].id != id
    requires id !in Keys(m[1..]) ==> rest == m[1..]
    requires id in Keys(m[1..]) ==>
               rest == m[1..][..IndexOf(m[1..], id)] + m[1..][IndexOf(m[1..], id) + 1..] && |rest| == |m| - 2
    ensures id !in Keys(m) ==> [m[0]] + rest == m
    ensures id in Keys(m) ==> [m[0]] + rest == m[..IndexOf(m, id)] + m[IndexOf(m, id) + 1..] && |rest| == |m| - 2
  {
    assert m == [m[0]] + m[1..];
    if id in Keys(m) {
      var j := IndexOf(m[1..], id);
      assert IndexOf(m, id) == j + 1;
      assert m[..j + 1] == [m[0]] + m[1..][..j];
      assert m[j + 2..] == m[1..][j + 1..];
    }
  }

  /** Adding a new pointer and removing it again restores the map. */
  lemma {:induction false} DeleteUndoesSet(m: seq<Entry>, id: int, p: Point)
    requires Distinct(m) && id !in Keys(m)
    ensures Delete(Set(m, id, p), id) == m
  {
    if m != [] {
      var rest := Set(m[1..], id, p);
      assert Set(m, id, p) == [m[0]] + rest;
      assert ([m[0]] + rest)[1..] == rest;
      DeleteUndoesSet(m[1..], id, p);
      assert m == [m[0]] + m[1..];
    }
  }
}
