/** The session record of api/api.go and the codec of its `Rights` map,
    which the router writes as two parallel lists of `Name` and `Access`
    elements. */
module Types {
  import opened Wrappers

  /** The session id the router hands out when there is no session. */
  const ZeroSid := "0000000000000000"

  datatype SessionUser = SessionUser(last: int, name: string)

  /** `SessionInfo`; `BlockTime` is kept as the text the router sends. */
  datatype SessionInfo = SessionInfo(sid: string, challenge: string, blockTime: string,
                                     rights: map<string, int>, users: seq<SessionUser>)

  /** `sessionAccessMap`: the `Name` and `Access` elements, each list in document order. */
  datatype AccessLists = AccessLists(names: seq<string>, access: seq<int>)

  /** The map built by storing `access[i]` under `names[i]` for i = 0, 1, ...;
      a later name overwrites an earlier equal one. */
  function Zip(names: seq<string>, access: seq<int>): map<string, int>
    requires |names| == |access|
  {
    if names == [] then map[]
    else Zip(names[..|names| - 1], access[..|access| - 1])[names[|names| - 1] := access[|access| - 1]]
  }

  /** The keys are exactly the names. */
  lemma {:induction false} ZipKeys(names: seq<string>, access: seq<int>)
    requires |names| == |access|
    ensures Zip(names, access).Keys == set i | 0 <= i < |names| :: names[i]
  {
    if names != [] {
      var n := |names| - 1;
      ZipKeys(names[..n], access[..n]);
      assert (set i | 0 <= i < |names| :: names[i]) == (set i | 0 <= i < n :: names[..n][i]) + {names[n]};
    }
  }

  /** Last writer wins: a name's value is the access level at its last occurrence. */
  lemma {:induction false} ZipLastWins(names: seq<string>, access: seq<int>, j: nat)
    requires |names| == |access| && j < |names|
    requires forall k | j < k < |names| :: names[k] != names[j]
    ensures names[j] in Zip(names, access) && Zip(names, access)[names[j]] == access[j]
  {
    var n := |names| - 1;
    if j < n {
      ZipLastWins(names[..n], access[..n], j);
    }
  }

  /** The map has at most one entry per name, and exactly one when the names are distinct. */
  lemma {:induction false} ZipSize(names: seq<string>, access: seq<int>)
    requires |names| == |access|
    ensures |Zip(names, access)| <= |names|
    ensures Distinct(names) ==> |Zip(names, access)| == |names|
  {
    if names != [] {
      var n := |names| - 1;
      ZipSize(names[..n], access[..n]);
      ZipKeys(names[..n], access[..n]);
      if Distinct(names) {
        assert names[n] !in Zip(names[..n], access[..n]);
      }
    }
  }

  predicate Distinct(s: seq<string>) {
    forall i, j | 0 <= i < j < |s| :: s[i] != s[j]
  }

  /** `order` lists every key of `m` exactly once: an iteration order of `range m`. */
  predicate IsIterationOrder(m: map<string, int>, order: seq<string>) {
    Distinct(order) && (forall k | k in m :: k in order) && (forall k | k in order :: k in m)
  }

  /** An XML token as `MarshalXML` emits it: the start and end tags, and the
      `Name` and `Access` elements `EncodeElement` writes. */
  datatype XmlItem = StartTag(name: string) | NameElement(key: string) | AccessElement(level: int) | EndTag(name: string)

  /** The element pairs for the keys of `order`, each name followed by its level. */
  function Entries(m: map<string, int>, order: seq<string>): (items: seq<XmlItem>)
    requires forall k | k in order :: k in m
    ensures |items| == 2 * |order|
  {
    if order == [] then []
    else
      var n := |order| - 1;
      Entries(m, order[..n]) + [NameElement(order[n]), AccessElement(m[order[n]])]
  }

  /** The names of `order` and their levels as two parallel lists: what `Entries` carries. */
  function Unzip(m: map<string, int>, order: seq<string>): (lists: AccessLists)
    requires forall k | k in order :: k in m
    ensures lists.names == order && |lists.access| == |order|
    ensures forall i | 0 <= i < |order| :: lists.access[i] == m[order[i]]
  {
    AccessLists(order, seq(|order|, i requires 0 <= i < |order| => m[order[i]]))
  }

  /** What encoding/xml gathers from the children of the `Rights` element into
      `sessionAccessMap`: every `Name` into one list, every `Access` into the other. */
  function Gather(items: seq<XmlItem>): (lists: AccessLists)
    ensures |lists.names| + |lists.access| <= |items|
  {
    if items == [] then AccessLists([], [])
    else
      var front := Gather(items[..|items| - 1]);
      match items[|items| - 1]
      case NameElement(key) => AccessLists(front.names + [key], front.access)
      case AccessElement(level) => AccessLists(front.names, front.access + [level])
      case _ => front
  }

  lemma {:induction false} GatherAppend(a: seq<XmlItem>, b: seq<XmlItem>)
    ensures Gather(a + b) == AccessLists(Gather(a).names + Gather(b).names, Gather(a).access + Gather(b).access)
    decreases |b|
  {
    if b == [] {
      assert a + b == a;
    } else {
      var n := |b| - 1;
      assert (a + b)[..|a + b| - 1] == a + b[..n];
      GatherAppend(a, b[..n]);
    }
  }

  /** One `Name` element followed by one `Access` element gathers to one entry in each list. */
  lemma GatherPair(key: string, level: int)
    ensures Gather([NameElement(key), AccessElement(level)]) == AccessLists([key], [level])
  {
    var pair := [NameElement(key), AccessElement(level)];
    assert pair[..1] == [NameElement(key)];
    assert [NameElement(key)][..0] == [];
    assert Gather([NameElement(key)]) == AccessLists([key], []);
  }

  /** The lists of a longer order extend those of its front by the last key and its level. */
  lemma UnzipSnoc(m: map<string, int>, order: seq<string>)
    requires forall k | k in order :: k in m
    requires order != []
    ensures var n := |order| - 1;
            var v := Unzip(m, order[..n]);
            Unzip(m, order) == AccessLists(v.names + [order[n]], v.access + [m[order[n]]])
  {
    var n := |order| - 1;
    var u := Unzip(m, order);
    var v := Unzip(m, order[..n]);
    assert u.names == v.names + [order[n]];
    forall i | 0 <= i < |order|
      ensures u.access[i] == (v.access + [m[order[n]]])[i]
    {
      if i < n {
        assert order[..n][i] == order[i];
      }
    }
    assert u.access == v.access + [m[order[n]]];
  }

  /** Gathering the encoded entries gives back the two parallel lists. */
  lemma {:induction false} GatherEntries(m: map<string, int>, order: seq<string>)
    requires forall k | k in order :: k in m
    ensures Gather(Entries(m, order)) == Unzip(m, order)
  {
    if order != [] {
      var n := |order| - 1;
      var front := order[..n];
      GatherEntries(m, front);
      var pair := [NameElement(order[n]), AccessElement(m[order[n]])];
      assert Entries(m, order) == Entries(m, front) + pair;
      GatherAppend(Entries(m, front), pair);
      GatherPair(order[n], m[order[n]]);
      UnzipSnoc(m, order);
    }
  }

  /** Zipping the lists of an iteration order reproduces the map. */
  lemma ZipUnzip(m: map<string, int>, order: seq<string>)
    requires IsIterationOrder(m, order)
    ensures var lists := Unzip(m, order); Zip(lists.names, lists.access) == m
  {
    var lists := Unzip(m, order);
    var z := Zip(lists.names, lists.access);
    ZipKeys(lists.names, lists.access);
    forall k | k in m
      ensures k in z && z[k] == m[k]
    {
      var j :| 0 <= j < |order| && order[j] == k;
      ZipLastWins(lists.names, lists.access, j);
    }
    assert z.Keys == m.Keys;
  }

  /** The round trip of the `Rights` map: whatever order `range` visits the
      keys in, gathering and zipping what `MarshalXML` writes yields the map again. */
  lemma RightsRoundTrip(m: map<string, int>, start: string, order: seq<string>)
    requires IsIterationOrder(m, order)
    ensures var items := Marshalled(m, start, order);
            var lists := Gather(items[1..|items| - 1]);
            |lists.names| == |lists.access| && Zip(lists.names, lists.access) == m
  {
    var items := Marshalled(m, start, order);
    assert items[1..|items| - 1] == Entries(m, order);
    GatherEntries(m, order);
    ZipUnzip(m, order);
  }

  /** The tokens `MarshalXML` writes: the start tag, one `Name` and `Access`
      pair per entry, then the end tag. */
  function Marshalled(m: map<string, int>, start: string, order: seq<string>): (items: seq<XmlItem>)
    requires forall k | k in order :: k in m
    ensures |items| == 2 * |order| + 2
    ensures items[0] == StartTag(start) && items[|items| - 1] == EndTag(start)
    ensures items[1..|items| - 1] == Entries(m, order)
  {
    [StartTag(start)] + Entries(m, order) + [EndTag(start)]
  }

  /** `MarshalXML` writes as many `Name` elements, and as many `Access`
      elements, as the map has entries. */
  lemma MarshalledCounts(m: map<string, int>, start: string, order: seq<string>)
    requires IsIterationOrder(m, order)
    ensures var lists := Gather(Marshalled(m, start, order));
            |lists.names| == |m| && |lists.access| == |m|
  {
    var body := Entries(m, order);
    GatherEntries(m, order);
    GatherAppend([StartTag(start)], body);
    GatherAppend([StartTag(start)] + body, [EndTag(start)]);
    assert Gather([StartTag(start)]) == AccessLists([], []) by {
      assert [StartTag(start)][..0] == [];
    }
    assert Gather([EndTag(start)]) == AccessLists([], []) by {
      assert [EndTag(start)][..0] == [];
    }
    ZipUnzip(m, order);
    ZipSize(order, Unzip(m, order).access);
  }

  /** Element `2*i+1` of the output is the name `order[i]` and the next one its level. */
  lemma {:induction false} EntriesAt(m: map<string, int>, order: seq<string>, i: nat)
    requires forall k | k in order :: k in m
    requires i < |order|
    ensures Entries(m, order)[2 * i] == NameElement(order[i])
    ensures Entries(m, order)[2 * i + 1] == AccessElement(m[order[i]])
  {
    var n := |order| - 1;
    if i < n {
      EntriesAt(m, order[..n], i);
    }
  }

  /** `SessionAccess`, the `Rights` map that `UnmarshalXML` assigns through its receiver. */
  class SessionAccess {
    var entries: map<string, int>

    constructor (entries: map<string, int>)
      ensures this.entries == entries
    {
      this.entries := entries;
    }

    /** `UnmarshalXML`: on a decoder error or unequal list lengths the map is
        left as it was; otherwise it is replaced by a fresh map filled from the lists. */
    method UnmarshalXML(data: Decoded<AccessLists>) returns (err: Option<Error>)
      modifies this
      ensures data.Malformed? ==> err == Some(Decode(data.detail)) && entries == old(entries)
      ensures data.Parsed? && |data.value.names| != |data.value.access|
              ==> err == Some(Failure("unbalanced map entries")) && entries == old(entries)
      ensures data.Parsed? && |data.value.names| == |data.value.access|
              ==> err == None && entries == Zip(data.value.names, data.value.access)
    {
      if data.Malformed? {
        return Some(Decode(data.detail));
      }
      var lists := data.value;
      if |lists.names| != |lists.access| {
        return Some(Failure("unbalanced map entries"));
      }
      entries := map[];
      for i := 0 to |lists.names|
        invariant entries == Zip(lists.names[..i], lists.access[..i])
      {
        assert lists.names[..i + 1][..i] == lists.names[..i];
        assert lists.access[..i + 1][..i] == lists.access[..i];
        entries := entries[lists.names[i] := lists.access[i]];
      }
      assert lists.names[..|lists.names|] == lists.names;
      assert lists.access[..|lists.access|] == lists.access;
      return None;
    }

    /** `MarshalXML`, visiting the keys in the iteration order `order`. */
    method MarshalXML(start: string, order: seq<string>) returns (items: seq<XmlItem>)
      requires IsIterationOrder(entries, order)
      ensures items == Marshalled(entries, start, order)
    {
      items := [StartTag(start)];
      for i := 0 to |order|
        invariant items == [StartTag(start)] + Entries(entries, order[..i])
      {
        assert order[..i + 1][..i] == order[..i];
        items := items + [NameElement(order[i]), AccessElement(entries[order[i]])];
      }
      assert order[..|order|] == order;
      items := items + [EndTag(start)];
    }
  }
}
