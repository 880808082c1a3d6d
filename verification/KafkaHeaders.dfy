/**
 Kafka message headers: an association list used as a text map carrier
 (broker/kafka/message.go) and turned into a map on the way in (broker/kafka/utils.go).
 */
module KafkaHeaders {
  datatype Header = Header(key: string, value: string)

  /** The list without the entries for `key`. */
  function Removed(hs: seq<Header>, key: string): (r: seq<Header>)
    ensures |r| <= |hs|
  {
    if hs == [] then []
    else (if hs[0].key == key then [] else [hs[0]]) + Removed(hs[1..], key)
  }

  /** `MessageCarrier.Set` */
  function WithSet(hs: seq<Header>, key: string, value: string): seq<Header> {
    Removed(hs, key) + [Header(key, value)]
  }

  /** `MessageCarrier.Get`: the first match, or the empty string. */
  function Lookup(hs: seq<Header>, key: string): string {
    if hs == [] then "" else if hs[0].key == key then hs[0].value else Lookup(hs[1..], key)
  }

  /** `kafkaHeaderToMap`: later entries win. */
  function ToMap(hs: seq<Header>): map<string, string> {
    if hs == [] then map[]
    else ToMap(hs[..|hs| - 1])[hs[|hs| - 1].key := hs[|hs| - 1].value]
  }

  /** One turn of the loop in `Set`: what is kept so far and what the rest keeps stay the same list. */
  lemma Advance(hs: seq<Header>, i: nat, key: string)
    requires i < |hs|
    ensures hs[i..][1..] == hs[i + 1..]
    ensures hs[i].key == key ==>
              var hs' := hs[..i] + hs[i + 1..];
              && hs'[i..] == hs[i + 1..]
              && hs'[..i] + Removed(hs'[i..], key) == hs[..i] + Removed(hs[i..], key)
    ensures hs[i].key != key ==> hs[..i + 1] + Removed(hs[i + 1..], key) == hs[..i] + Removed(hs[i..], key)
  {
    assert hs[i..][0] == hs[i] && hs[i..][1..] == hs[i + 1..];
    var hs' := hs[..i] + hs[i + 1..];
    assert hs'[..i] == hs[..i] && hs'[i..] == hs[i + 1..];
    assert hs[..i + 1] == hs[..i] + [hs[i]];
  }

  class MessageCarrier {
    var headers: seq<Header>

    constructor (headers: seq<Header>)
      ensures this.headers == headers
    {
      this.headers := headers;
    }

    method Get(key: string) returns (value: string)
      ensures value == Lookup(headers, key)
    {
      for i := 0 to |headers|
        invariant Lookup(headers[i..], key) == Lookup(headers, key)
      {
        assert headers[i..][1..] == headers[i + 1..];
        if headers[i].key == key {
          return headers[i].value;
        }
      }
      return "";
    }

    /** Deletes every entry for the key while scanning, stepping the index back, then appends. */
    method Set(key: string, value: string)
      modifies this
      ensures headers == WithSet(old(headers), key, value)
    {
      ghost var seen := 0;
      var i := 0;
      while i < |headers|
        invariant 0 <= i <= |headers| && seen <= |old(headers)|
        invariant |headers| - i == |old(headers)| - seen
        invariant headers[i..] == old(headers)[seen..]
        invariant headers[..i] + Removed(headers[i..], key) == Removed(old(headers), key)
        decreases |headers| - i
      {
        assert old(headers)[seen..][1..] == old(headers)[seen + 1..];
        Advance(headers, i, key);
        if headers[i].key == key {
          headers := headers[..i] + headers[i + 1..];
          i := i - 1;
        }
        seen := seen + 1;
        i := i + 1;
      }
      assert headers[..i] + [] == headers;
      headers := headers + [Header(key, value)];
    }

    method Keys() returns (out: seq<string>)
      ensures |out| == |headers| && forall i | 0 <= i < |headers| :: out[i] == headers[i].key
    {
      out := [];
      for i := 0 to |headers|
        invariant |out| == i && forall k | 0 <= k < i :: out[k] == headers[k].key
      {
        out := out + [headers[i].key];
      }
    }
  }

  method HeaderToMap(hs: seq<Header>) returns (m: map<string, string>)
    ensures m == ToMap(hs)
  {
    m := map[];
    for i := 0 to |hs|
      invariant m == ToMap(hs[..i])
    {
      assert hs[..i + 1][..i] == hs[..i];
      m := m[hs[i].key := hs[i].value];
    }
    assert hs[..|hs|] == hs;
  }

  // ---------- The list as a map ----------

  ghost predicate NoDuplicates(hs: seq<Header>) {
    forall i, j | 0 <= i < j < |hs| :: hs[i].key != hs[j].key
  }

  function Find(m: map<string, string>, key: string): string {
    if key in m then m[key] else ""
  }

  lemma {:induction false} ToMapHead(h: Header, hs: seq<Header>)
    ensures ToMap([h] + hs) == map[h.key := h.value] + ToMap(hs)
  {
    var all := [h] + hs;
    if hs == [] {
      assert all[..|all| - 1] == [];
    } else {
      assert all[..|all| - 1] == [h] + hs[..|hs| - 1];
      ToMapHead(h, hs[..|hs| - 1]);
    }
  }

  lemma {:induction false} KeysInMap(hs: seq<Header>, key: string)
    ensures key in ToMap(hs) <==> exists i :: 0 <= i < |hs| && hs[i].key == key
  {
    if hs != [] {
      var init := hs[..|hs| - 1];
      KeysInMap(init, key);
      assert forall i | 0 <= i < |init| :: init[i] == hs[i];
    }
  }

  /** The first entry of a key is the one that `Get` finds, the last one the one that the map keeps. */
  lemma {:induction false} FirstAndLast(hs: seq<Header>, key: string, first: nat, last: nat)
    requires first < |hs| && hs[first].key == key && forall j | 0 <= j < first :: hs[j].key != key
    requires last < |hs| && hs[last].key == key && forall j | last < j < |hs| :: hs[j].key != key
    ensures Lookup(hs, key) == hs[first].value
    ensures key in ToMap(hs) && ToMap(hs)[key] == hs[last].value
    decreases |hs|
  {
    LookupFinds(hs, key, first);
    MapKeeps(hs, key, last);
  }

  lemma {:induction false} LookupFinds(hs: seq<Header>, key: string, first: nat)
    requires first < |hs| && hs[first].key == key && forall j | 0 <= j < first :: hs[j].key != key
    ensures Lookup(hs, key) == hs[first].value
    decreases |hs|
  {
    if first > 0 {
      assert hs[0].key != key;
      LookupFinds(hs[1..], key, first - 1);
    }
  }

  lemma {:induction false} MapKeeps(hs: seq<Header>, key: string, last: nat)
    requires last < |hs| && hs[last].key == key && forall j | last < j < |hs| :: hs[j].key != key
    ensures key in ToMap(hs) && ToMap(hs)[key] == hs[last].value
    decreases |hs|
  {
    if last < |hs| - 1 {
      MapKeeps(hs[..|hs| - 1], key, last);
    }
  }

  /** A key that no entry has is found by neither. */
  lemma {:induction false} AbsentKey(hs: seq<Header>, key: string)
    requires forall j | 0 <= j < |hs| :: hs[j].key != key
    ensures Lookup(hs, key) == "" && key !in ToMap(hs)
    decreases |hs|
  {
    KeysInMap(hs, key);
    if hs != [] {
      AbsentKey(hs[1..], key);
    }
  }

  ghost predicate Lacks(hs: seq<Header>, key: string) {
    forall j | 0 <= j < |hs| :: hs[j].key != key
  }

  lemma {:induction false} RemovedParts(a: seq<Header>, b: seq<Header>, key: string)
    ensures Removed(a + b, key) == Removed(a, key) + Removed(b, key)
    decreases |a|
  {
    if a == [] {
      assert a + b == b;
    } else {
      assert (a + b)[1..] == a[1..] + b;
      RemovedParts(a[1..], b, key);
    }
  }

  lemma {:induction false} RemovedOthers(hs: seq<Header>, key: string)
    requires Lacks(hs, key)
    ensures Removed(hs, key) == hs
    decreases |hs|
  {
    if hs != [] {
      RemovedOthers(hs[1..], key);
    }
  }

  lemma RemovedBetween(a: seq<Header>, b: seq<Header>, key: string, was: string)
    requires Lacks(a, key) && Lacks(b, key)
    ensures Removed(a + [Header(key, was)] + b, key) == a + b
  {
    var entry := [Header(key, was)];
    RemovedParts(a + entry, b, key);
    RemovedParts(a, entry, key);
    RemovedOthers(a, key);
    RemovedOthers(b, key);
    assert entry[1..] == [];
    assert a + [] == a;
  }

  /** Setting a header takes its old entry out, keeps the others in their order and puts the new one last. */
  lemma SetReplaces(a: seq<Header>, b: seq<Header>, key: string, was: string, value: string)
    requires Lacks(a, key) && Lacks(b, key)
    ensures WithSet(a + b, key, value) == a + b + [Header(key, value)]
    ensures WithSet(a + [Header(key, was)] + b, key, value) == a + b + [Header(key, value)]
  {
    RemovedOthers(a + b, key);
    RemovedBetween(a, b, key, was);
  }

  lemma {:induction false} RemovedIsRemoval(hs: seq<Header>, key: string)
    ensures ToMap(Removed(hs, key)) == ToMap(hs) - {key}
  {
    if hs != [] {
      assert hs == [hs[0]] + hs[1..];
      ToMapHead(hs[0], hs[1..]);
      RemovedIsRemoval(hs[1..], key);
      MergedWithout(hs[0], ToMap(hs[1..]), key);
      if hs[0].key == key {
        assert [] + Removed(hs[1..], key) == Removed(hs[1..], key);
      } else {
        ToMapHead(hs[0], Removed(hs[1..], key));
      }
    }
  }

  lemma MergedWithout(h: Header, m: map<string, string>, key: string)
    ensures (map[h.key := h.value] + m) - {key} ==
            if h.key == key then m - {key} else map[h.key := h.value] + (m - {key})
  {
  }

  /** One `Set` on any list, duplicates included, is one map update. */
  lemma SetIsUpdate(hs: seq<Header>, key: string, value: string)
    ensures ToMap(WithSet(hs, key, value)) == ToMap(hs)[key := value]
  {
    var r := WithSet(hs, key, value);
    assert r[..|r| - 1] == Removed(hs, key);
    RemovedIsRemoval(hs, key);
  }

  lemma {:induction false} RemovedMembers(hs: seq<Header>, key: string)
    ensures forall h :: h in Removed(hs, key) <==> h in hs && h.key != key
    ensures NoDuplicates(hs) ==> NoDuplicates(Removed(hs, key))
  {
    if hs != [] {
      RemovedMembers(hs[1..], key);
      var rest := Removed(hs[1..], key);
      assert hs == [hs[0]] + hs[1..];
      if NoDuplicates(hs) {
        assert forall i | 0 <= i < |hs[1..]| :: hs[1..][i] == hs[i + 1];
        assert forall i | 0 <= i < |rest| :: rest[i] in rest;
        assert forall h | h in hs[1..] :: h.key != hs[0].key;
      }
    }
  }

  lemma SetKeepsUnique(hs: seq<Header>, key: string, value: string)
    requires NoDuplicates(hs)
    ensures NoDuplicates(WithSet(hs, key, value))
  {
    RemovedMembers(hs, key);
    var rest := Removed(hs, key);
    assert forall i | 0 <= i < |rest| :: rest[i] in rest;
  }

  /** Without duplicates the first match and the last entry are the same one. */
  lemma {:induction false} LookupIsFind(hs: seq<Header>, key: string)
    requires NoDuplicates(hs)
    ensures Lookup(hs, key) == Find(ToMap(hs), key)
  {
    if hs != [] {
      assert hs == [hs[0]] + hs[1..];
      ToMapHead(hs[0], hs[1..]);
      LookupIsFind(hs[1..], key);
      KeysInMap(hs[1..], hs[0].key);
      assert forall i | 0 <= i < |hs[1..]| :: hs[1..][i] == hs[i + 1];
    }
  }

  function SetAll(hs: seq<Header>, updates: seq<Header>): seq<Header> {
    if updates == [] then hs
    else
      var last := updates[|updates| - 1];
      WithSet(SetAll(hs, updates[..|updates| - 1]), last.key, last.value)
  }

  /**
   After any sequence of `Set` calls on a list without duplicates the list still has none,
   it is the original map with the updates applied in order, and `Get` reads that map.
   */
  lemma {:induction false} CarrierIsMap(hs: seq<Header>, updates: seq<Header>, key: string)
    requires NoDuplicates(hs)
    ensures NoDuplicates(SetAll(hs, updates))
    ensures ToMap(SetAll(hs, updates)) == ToMap(hs) + ToMap(updates)
    ensures Lookup(SetAll(hs, updates), key) == Find(ToMap(hs) + ToMap(updates), key)
    decreases |updates|
  {
    if updates == [] {
      assert ToMap(hs) + map[] == ToMap(hs);
    } else {
      var init, last := updates[..|updates| - 1], updates[|updates| - 1];
      var before := SetAll(hs, init);
      CarrierIsMap(hs, init, key);
      SetIsUpdate(before, last.key, last.value);
      SetKeepsUnique(before, last.key, last.value);
      MergedThenUpdated(ToMap(hs), ToMap(init), last);
    }
    LookupIsFind(SetAll(hs, updates), key);
  }

  lemma MergedThenUpdated(a: map<string, string>, b: map<string, string>, h: Header)
    ensures (a + b)[h.key := h.value] == a + b[h.key := h.value]
  {
  }
}
