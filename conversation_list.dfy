// client/src/components/ConversationList.jsx: the messages sidebar. One entry
// per person: the people the user has conversations with first, then the
// connections the user has not yet written to, narrowed by the search box.
module ConversationList {
  import opened Common
  import opened Text

  /** A populated user: id and display name. */
  datatype Person = Person(id: Id, name: string)

  /** A conversation as the client receives it, participants populated. */
  datatype Convo = Convo(id: Id, participants: seq<Person>)

  /** An entry of the list: an existing conversation with `user`, or a
      connection to start one with. */
  datatype Item = ConversationItem(data: Convo, user: Person) | ConnectionItem(user: Person)

  /** One entry of a JavaScript Map. A Map keeps its entries in insertion
      order, and `set` on a present key replaces the value where it stands. */
  datatype Slot = Slot(key: Id, item: Item)

  /** `participants.find(p => p._id !== user._id)`: the first participant who
      is not `me`. */
  function Other(participants: seq<Person>, me: Id): (r: Option<Person>)
    ensures r.None? <==> forall i :: 0 <= i < |participants| ==> participants[i].id == me
    ensures r.Some? ==> exists i :: 0 <= i < |participants| && participants[i] == r.value
                                    && forall j :: 0 <= j < i ==> participants[j].id == me
    ensures r.Some? ==> r.value.id != me
  {
    if |participants| == 0 then None
    else if participants[0].id != me then Some(participants[0])
    else
      var rest := Other(participants[1..], me);
      assert forall i :: 1 <= i < |participants| ==> participants[i] == participants[1..][i - 1];
      rest
  }

  /** Where `key` stands in the map, if it is there (`has`). */
  function IndexOf(m: seq<Slot>, key: Id): (r: Option<nat>)
    ensures r.None? <==> forall i :: 0 <= i < |m| ==> m[i].key != key
    ensures r.Some? ==> r.value < |m| && m[r.value].key == key
  {
    if |m| == 0 then None
    else if m[|m| - 1].key == key then Some(|m| - 1)
    else IndexOf(m[..|m| - 1], key)
  }

  /** Every key at most once, and every entry keyed by its person's id. */
  predicate WellKeyed(m: seq<Slot>)
  {
    (forall i, j :: 0 <= i < j < |m| ==> m[i].key != m[j].key)
    && (forall i :: 0 <= i < |m| ==> m[i].key == m[i].item.user.id)
  }

  /** `map.set(key, item)`: a present key takes the new value where it
      stands; a new key goes at the end. */
  function Put(m: seq<Slot>, key: Id, item: Item): seq<Slot>
  {
    match IndexOf(m, key)
    case None => m + [Slot(key, item)]
    case Some(i) => m[i := Slot(key, item)]
  }

  /** Every key of `m` is still a key of `r`. */
  ghost predicate KeysKept(m: seq<Slot>, r: seq<Slot>)
  {
    forall k :: IndexOf(m, k).Some? ==> IndexOf(r, k).Some?
  }

  /** `r` starts with the entries of `m`, unchanged and in their places. */
  ghost predicate Extends(r: seq<Slot>, m: seq<Slot>)
  {
    |m| <= |r| && forall i :: 0 <= i < |m| ==> r[i] == m[i]
  }

  /** `set` keeps one entry per key: a present key keeps its place, a new key
      takes the next one; every other entry stays as it was. */
  lemma PutShape(m: seq<Slot>, key: Id, item: Item)
    requires WellKeyed(m) && key == item.user.id
    ensures WellKeyed(Put(m, key, item))
    ensures |Put(m, key, item)| == |m| + (if IndexOf(m, key).Some? then 0 else 1)
    ensures IndexOf(Put(m, key, item), key) == (if IndexOf(m, key).Some? then IndexOf(m, key) else Some(|m|))
    ensures Put(m, key, item)[IndexOf(Put(m, key, item), key).value] == Slot(key, item)
    ensures forall i :: 0 <= i < |m| && m[i].key != key ==> Put(m, key, item)[i] == m[i]
    ensures KeysKept(m, Put(m, key, item))
  {
    match IndexOf(m, key)
    case None => PutNewKey(m, key, item);
    case Some(j) => PutPresentKey(m, key, item, j);
  }

  /** `set` of a new key appends it. */
  lemma PutNewKey(m: seq<Slot>, key: Id, item: Item)
    requires WellKeyed(m) && key == item.user.id && IndexOf(m, key).None?
    ensures Put(m, key, item) == m + [Slot(key, item)]
    ensures WellKeyed(m + [Slot(key, item)])
    ensures IndexOf(m + [Slot(key, item)], key) == Some(|m|)
    ensures KeysKept(m, m + [Slot(key, item)])
  {
    var r := m + [Slot(key, item)];
    forall k | IndexOf(m, k).Some? ensures IndexOf(r, k).Some? {
      assert r[IndexOf(m, k).value] == m[IndexOf(m, k).value];
    }
  }

  /** `set` of a present key replaces its entry in place. */
  lemma PutPresentKey(m: seq<Slot>, key: Id, item: Item, j: nat)
    requires WellKeyed(m) && key == item.user.id && IndexOf(m, key) == Some(j)
    ensures Put(m, key, item) == m[j := Slot(key, item)]
    ensures WellKeyed(m[j := Slot(key, item)])
    ensures IndexOf(m[j := Slot(key, item)], key) == Some(j)
    ensures KeysKept(m, m[j := Slot(key, item)])
  {
    var r := m[j := Slot(key, item)];
    assert r[j].key == key;
    forall k | IndexOf(m, k).Some? ensures IndexOf(r, k).Some? {
      var i := IndexOf(m, k).value;
      if i != j {
        assert r[i] == m[i];
      }
    }
  }

  /** The slot holds a conversation filed under its other participant. */
  predicate FiledUnderOther(s: Slot, me: Id)
  {
    s.item.ConversationItem? && Other(s.item.data.participants, me) == Some(s.item.user)
  }

  /** The conversation's other participant, when it has one, has a slot. */
  predicate PartnerHasSlot(m: seq<Slot>, c: Convo, me: Id)
  {
    Other(c.participants, me).Some? ==> IndexOf(m, Other(c.participants, me).value.id).Some?
  }

  /** One step of `conversations.forEach`: the conversation is filed under
      its other participant, when it has one. */
  function ConversationStep(m: seq<Slot>, c: Convo, me: Id): seq<Slot>
  {
    match Other(c.participants, me)
    case None => m
    case Some(o) => Put(m, o.id, ConversationItem(c, o))
  }

  /** One conversation step keeps one entry per person, keeps every key, and
      gives the conversation's partner an entry; an entry it writes is that
      conversation, filed under its partner. */
  lemma ConversationStepShape(m: seq<Slot>, c: Convo, me: Id)
    requires WellKeyed(m)
    ensures WellKeyed(ConversationStep(m, c, me))
    ensures forall i :: 0 <= i < |ConversationStep(m, c, me)| ==>
              (i < |m| && ConversationStep(m, c, me)[i] == m[i])
              || (FiledUnderOther(ConversationStep(m, c, me)[i], me) && ConversationStep(m, c, me)[i].item.data == c)
    ensures KeysKept(m, ConversationStep(m, c, me))
    ensures PartnerHasSlot(ConversationStep(m, c, me), c, me)
  {
    match Other(c.participants, me)
    case None =>
      assert ConversationStep(m, c, me) == m;
    case Some(o) =>
      PutShape(m, o.id, ConversationItem(c, o));
  }

  /** The map after the conversations (`forEach` over them, oldest first). */
  function AfterConversations(convs: seq<Convo>, me: Id): seq<Slot>
  {
    if |convs| == 0 then []
    else ConversationStep(AfterConversations(convs[..|convs| - 1], me), convs[|convs| - 1], me)
  }

  /** Every entry is a conversation of `convs` filed under its other participant. */
  ghost predicate OnlyConversations(m: seq<Slot>, convs: seq<Convo>, me: Id)
  {
    forall i :: 0 <= i < |m| ==> FiledUnderOther(m[i], me) && m[i].item.data in convs
  }

  /** After the conversations: one entry per person, each a conversation
      filed under its other participant, and every conversation with another
      participant has an entry; those without one are skipped. */
  lemma {:induction false} ConversationsFiled(convs: seq<Convo>, me: Id)
    ensures WellKeyed(AfterConversations(convs, me))
    ensures OnlyConversations(AfterConversations(convs, me), convs, me)
    ensures forall c :: c in convs ==> PartnerHasSlot(AfterConversations(convs, me), c, me)
  {
    if |convs| > 0 {
      var n := |convs| - 1;
      var prefix, c := convs[..n], convs[n];
      assert convs == prefix + [c];
      ConversationsFiled(prefix, me);
      var prev := AfterConversations(prefix, me);
      var r := AfterConversations(convs, me);
      assert r == ConversationStep(prev, c, me);
      ConversationStepShape(prev, c, me);
      forall i | 0 <= i < |r| ensures FiledUnderOther(r[i], me) && r[i].item.data in convs {
        if i < |prev| && r[i] == prev[i] {
          assert prev[i].item.data in prefix;
        }
      }
      forall d | d in convs ensures PartnerHasSlot(r, d, me) {
        if d != c {
          assert d in prefix;
          assert PartnerHasSlot(prev, d, me);
        }
      }
    }
  }

  /** One step of `connections.forEach`: a person not yet in the map is added
      as a connection; a person already there keeps their conversation. */
  function ConnectionStep(m: seq<Slot>, p: Person): seq<Slot>
  {
    if IndexOf(m, p.id).Some? then m else Put(m, p.id, ConnectionItem(p))
  }

  /** One connection step keeps one entry per person and every entry in
      place, gives the person an entry, and appends at most that person. */
  lemma ConnectionStepShape(m: seq<Slot>, p: Person)
    requires WellKeyed(m)
    ensures WellKeyed(ConnectionStep(m, p))
    ensures Extends(ConnectionStep(m, p), m)
    ensures forall i :: |m| <= i < |ConnectionStep(m, p)| ==> ConnectionStep(m, p)[i].item == ConnectionItem(p)
    ensures KeysKept(m, ConnectionStep(m, p))
    ensures IndexOf(ConnectionStep(m, p), p.id).Some?
  {
    if IndexOf(m, p.id).None? {
      PutShape(m, p.id, ConnectionItem(p));
      assert ConnectionStep(m, p) == m + [Slot(p.id, ConnectionItem(p))];
    }
  }

  /** The map after the connections (`forEach` over them, in order). */
  function AfterConnections(m: seq<Slot>, conns: seq<Person>): seq<Slot>
  {
    if |conns| == 0 then m
    else ConnectionStep(AfterConnections(m, conns[..|conns| - 1]), conns[|conns| - 1])
  }

  /** Every entry past the first |m| is a connection from `conns`. */
  ghost predicate ConnectionsAfter(r: seq<Slot>, m: seq<Slot>, conns: seq<Person>)
  {
    forall i :: |m| <= i < |r| ==> r[i].item.ConnectionItem? && r[i].item.user in conns
  }

  /** After the connections: the earlier entries stay as and where they were,
      so a conversation wins over a connection to the same person; only
      connection entries are appended, and every connection has an entry. */
  lemma {:induction false} ConnectionsFiled(m: seq<Slot>, conns: seq<Person>)
    requires WellKeyed(m)
    ensures WellKeyed(AfterConnections(m, conns))
    ensures Extends(AfterConnections(m, conns), m)
    ensures ConnectionsAfter(AfterConnections(m, conns), m, conns)
    ensures forall p :: p in conns ==> IndexOf(AfterConnections(m, conns), p.id).Some?
  {
    if |conns| > 0 {
      var n := |conns| - 1;
      var prefix, p := conns[..n], conns[n];
      assert conns == prefix + [p];
      ConnectionsFiled(m, prefix);
      var prev := AfterConnections(m, prefix);
      var r := AfterConnections(m, conns);
      assert r == ConnectionStep(prev, p);
      ConnectionStepShape(prev, p);
      forall i | |m| <= i < |r| ensures r[i].item.ConnectionItem? && r[i].item.user in conns {
        if i < |prev| {
          assert r[i] == prev[i];
          assert prev[i].item.user in prefix;
        }
      }
      forall q | q in conns ensures IndexOf(r, q.id).Some? {
        if q != p {
          assert q in prefix;
        }
      }
    }
  }

  /** `Array.from(map.values())`. */
  function Values(m: seq<Slot>): (r: seq<Item>)
    ensures |r| == |m|
    ensures forall i :: 0 <= i < |m| ==> r[i] == m[i].item
  {
    seq(|m|, i requires 0 <= i < |m| => m[i].item)
  }

  /** Whether the entry's name contains the search term, ignoring case. */
  predicate Matches(item: Item, search: string)
  {
    Includes(Lower(item.user.name), Lower(search))
  }

  /** `.filter(...)` with the search term. */
  function Matching(items: seq<Item>, search: string): seq<Item>
  {
    if |items| == 0 then []
    else Matching(items[..|items| - 1], search)
         + (if Matches(items[|items| - 1], search) then [items[|items| - 1]] else [])
  }

  /** The filter keeps exactly the entries whose name contains the term. */
  lemma {:induction false} MatchingMembers(items: seq<Item>, search: string)
    ensures forall x :: x in Matching(items, search) <==> x in items && Matches(x, search)
  {
    if |items| > 0 {
      var n := |items| - 1;
      MatchingMembers(items[..n], search);
      assert items == items[..n] + [items[n]];
    }
  }

  /** displayList. */
  function DisplayList(convs: seq<Convo>, conns: seq<Person>, me: Id, search: string): (r: seq<Item>)
  {
    Matching(Values(AfterConnections(AfterConversations(convs, me), conns)), search)
  }

  /** `conversations.forEach(...)` on an empty map. */
  method FileConversations(convs: seq<Convo>, me: Id) returns (convoMap: seq<Slot>)
    ensures convoMap == AfterConversations(convs, me)
  {
    convoMap := [];
    var i := 0;
    while i < |convs|
      invariant 0 <= i <= |convs|
      invariant convoMap == AfterConversations(convs[..i], me)
    {
      assert convs[..i + 1][..i] == convs[..i];
      var other := Other(convs[i].participants, me);
      if other.Some? {
        convoMap := Put(convoMap, other.value.id, ConversationItem(convs[i], other.value));
      }
      i := i + 1;
    }
    assert convs[..|convs|] == convs;
  }

  /** `connections.forEach(...)`: a connection is set only when `has` says
      its id is absent. */
  method FileConnections(start: seq<Slot>, conns: seq<Person>) returns (convoMap: seq<Slot>)
    ensures convoMap == AfterConnections(start, conns)
  {
    convoMap := start;
    var k := 0;
    while k < |conns|
      invariant 0 <= k <= |conns|
      invariant convoMap == AfterConnections(start, conns[..k])
    {
      assert conns[..k + 1][..k] == conns[..k] && conns[..k + 1][k] == conns[k];
      ghost var before := convoMap;
      if IndexOf(convoMap, conns[k].id).None? {
        convoMap := Put(convoMap, conns[k].id, ConnectionItem(conns[k]));
      }
      assert convoMap == ConnectionStep(before, conns[k]);
      k := k + 1;
    }
    assert conns[..|conns|] == conns;
  }

  /** The search filter over the map's values. */
  method FilterBySearch(values: seq<Item>, search: string) returns (list: seq<Item>)
    ensures list == Matching(values, search)
  {
    list := [];
    var j := 0;
    while j < |values|
      invariant 0 <= j <= |values|
      invariant list == Matching(values[..j], search)
    {
      assert values[..j + 1][..j] == values[..j];
      if Matches(values[j], search) {
        list := list + [values[j]];
      }
      j := j + 1;
    }
    assert values[..|values|] == values;
  }

  /** The useMemo body: the map built entry by entry, then filtered. */
  method BuildDisplayList(convs: seq<Convo>, conns: seq<Person>, me: Id, search: string) returns (list: seq<Item>)
    ensures list == DisplayList(convs, conns, me, search)
  {
    var convoMap := FileConversations(convs, me);
    convoMap := FileConnections(convoMap, conns);
    list := FilterBySearch(Values(convoMap), search);
  }

  /** No person has two entries. */
  predicate DistinctUsers(items: seq<Item>)
  {
    forall i, j :: 0 <= i < j < |items| ==> items[i].user.id != items[j].user.id
  }

  /** Every conversation entry before every connection entry. */
  predicate ConversationsFirst(items: seq<Item>)
  {
    forall i, j :: 0 <= i < j < |items| && items[i].ConnectionItem? ==> items[j].ConnectionItem?
  }

  /** The filter keeps entries of distinct people distinct. */
  lemma {:induction false} MatchingKeepsDistinctUsers(items: seq<Item>, search: string)
    requires DistinctUsers(items)
    ensures DistinctUsers(Matching(items, search))
  {
    if |items| > 0 {
      var prefix := items[..|items| - 1];
      MatchingKeepsDistinctUsers(prefix, search);
      MatchingMembers(prefix, search);
      var last := items[|items| - 1];
      var p := Matching(prefix, search);
      forall i | 0 <= i < |p| ensures p[i].user.id != last.user.id {
        assert p[i] in prefix;
        var k :| 0 <= k < |prefix| && prefix[k] == p[i];
        assert items[k] == p[i];
      }
      var r := Matching(items, search);
      if Matches(last, search) {
        assert r == p + [last];
        forall i, j | 0 <= i < j < |r| ensures r[i].user.id != r[j].user.id {
          assert r[i] == p[i];
          if j < |p| {
            assert r[j] == p[j];
          }
        }
      } else {
        assert r == p;
      }
    }
  }

  /** The filter keeps conversations ahead of connections. */
  lemma {:induction false} MatchingKeepsConversationsFirst(items: seq<Item>, search: string)
    requires ConversationsFirst(items)
    ensures ConversationsFirst(Matching(items, search))
  {
    if |items| > 0 {
      var prefix := items[..|items| - 1];
      MatchingKeepsConversationsFirst(prefix, search);
      MatchingMembers(prefix, search);
      var last := items[|items| - 1];
      var p := Matching(prefix, search);
      if last.ConversationItem? {
        forall i | 0 <= i < |p| ensures p[i].ConversationItem? {
          assert p[i] in prefix;
          var k :| 0 <= k < |prefix| && prefix[k] == p[i];
          assert items[k] == p[i];
        }
      }
      var r := Matching(items, search);
      if Matches(last, search) {
        assert r == p + [last];
        forall i, j | 0 <= i < j < |r| && r[i].ConnectionItem? ensures r[j].ConnectionItem? {
          assert r[i] == p[i];
          if j < |p| {
            assert r[j] == p[j];
          }
        }
      } else {
        assert r == p;
      }
    }
  }

  /** Before the filter: one entry per person, conversations first. */
  lemma MapShape(convs: seq<Convo>, conns: seq<Person>, me: Id)
    ensures DistinctUsers(Values(AfterConnections(AfterConversations(convs, me), conns)))
    ensures ConversationsFirst(Values(AfterConnections(AfterConversations(convs, me), conns)))
  {
    var m := AfterConversations(convs, me);
    ConversationsFiled(convs, me);
    ConnectionsFiled(m, conns);
    var r := AfterConnections(m, conns);
    var values := Values(r);
    forall i, j | 0 <= i < j < |values| ensures values[i].user.id != values[j].user.id {
      assert values[i] == r[i].item && values[j] == r[j].item;
    }
    forall i | 0 <= i < |values| ensures values[i].ConversationItem? <==> i < |m| {
      assert values[i] == r[i].item;
      if i < |m| {
        assert r[i] == m[i];
      }
    }
  }

  /** The list names each person once, and every conversation entry comes
      before every connection entry. */
  lemma DisplayListShape(convs: seq<Convo>, conns: seq<Person>, me: Id, search: string)
    ensures DistinctUsers(DisplayList(convs, conns, me, search))
    ensures ConversationsFirst(DisplayList(convs, conns, me, search))
  {
    var values := Values(AfterConnections(AfterConversations(convs, me), conns));
    MapShape(convs, conns, me);
    MatchingKeepsDistinctUsers(values, search);
    MatchingKeepsConversationsFirst(values, search);
  }

  /** Every name contains the empty term. */
  lemma MatchesEmpty(x: Item)
    ensures Matches(x, "")
  {
    assert Lower("") == "";
    assert "" <= Lower(x.user.name);
  }

  /** An empty search term shows every entry of the map. */
  lemma {:induction false} EmptySearchKeepsAll(items: seq<Item>)
    ensures Matching(items, "") == items
  {
    if |items| > 0 {
      var n := |items| - 1;
      EmptySearchKeepsAll(items[..n]);
      MatchesEmpty(items[n]);
      assert Matching(items, "") == Matching(items[..n], "") + [items[n]];
      assert items[..n] + [items[n]] == items;
    }
  }

  /** With an empty search every connection is listed, and someone the user
      already has a conversation with is listed with that conversation. */
  lemma EveryoneListed(convs: seq<Convo>, conns: seq<Person>, me: Id)
    ensures forall p :: p in conns ==>
              exists x :: x in DisplayList(convs, conns, me, "") && x.user.id == p.id
    ensures forall c :: c in convs && Other(c.participants, me).Some? ==>
              exists x :: x in DisplayList(convs, conns, me, "") && x.ConversationItem?
                          && x.user.id == Other(c.participants, me).value.id
  {
    var m := AfterConversations(convs, me);
    ConversationsFiled(convs, me);
    ConnectionsFiled(m, conns);
    var r := AfterConnections(m, conns);
    EmptySearchKeepsAll(Values(r));
    assert DisplayList(convs, conns, me, "") == Values(r);
    forall p | p in conns
      ensures exists x :: x in Values(r) && x.user.id == p.id
    {
      var i := IndexOf(r, p.id).value;
      assert Values(r)[i] == r[i].item;
    }
    forall c | c in convs && Other(c.participants, me).Some?
      ensures exists x :: x in Values(r) && x.ConversationItem? && x.user.id == Other(c.participants, me).value.id
    {
      var i := IndexOf(m, Other(c.participants, me).value.id).value;
      assert r[i] == m[i];
      assert Values(r)[i] == r[i].item;
    }
  }
}
