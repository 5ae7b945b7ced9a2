/**
 The chat collection store (hooks/useChatStore.ts): an ordered collection of
 chats, newest first, with a lookup by id and five actions that replace the
 collection by a new value computed from the old one.
 */
module ChatStore {
  import opened Options
  import opened Sequences

  /** The few parts of a chat message that the store can see; the store never looks inside one. */
  datatype Role = User | Assistant
  datatype Part = Text(text: string) | Other(kind: string)
  datatype Message = Message(id: string, role: Role, parts: seq<Part>)

  datatype Chat = Chat(id: string, title: string, description: string, messages: seq<Message>)

  /** The chat that `createChat` prepends: nothing but its id is set. */
  function NewChat(id: string): (c: Chat)
    ensures c.id == id && c.title == "" && c.description == "" && c.messages == []
  {
    Chat(id, "", "", [])
  }

  function Ids(chats: seq<Chat>): (r: seq<string>)
    ensures |r| == |chats|
    ensures forall i :: 0 <= i < |chats| ==> r[i] == chats[i].id
  {
    Map(chats, (c: Chat) => c.id)
  }

  /** The ids of a non-empty collection are its first chat's id followed by the ids of the rest. */
  lemma IdsCons(chats: seq<Chat>)
    requires |chats| > 0
    ensures Ids(chats) == [chats[0].id] + Ids(chats[1..])
  {
    assert forall i :: 0 < i < |chats| ==> chats[1..][i - 1] == chats[i];
  }

  /** No two chats of the collection share an id. */
  predicate UniqueIds(chats: seq<Chat>)
  {
    forall i, j :: 0 <= i < j < |chats| ==> chats[i].id != chats[j].id
  }

  /** `chats.find(chat => chat.id === id)`: the first chat with that id, or none; it never fails. */
  function Find(chats: seq<Chat>, id: string): (r: Option<Chat>)
    ensures r.None? <==> id !in Ids(chats)
    ensures r.Some? ==> exists i :: 0 <= i < |chats| && chats[i] == r.value && r.value.id == id &&
                                    (forall j :: 0 <= j < i ==> chats[j].id != id)
    decreases |chats|
  {
    if chats == [] then None
    else if chats[0].id == id then Some(chats[0])
    else
      var r := Find(chats[1..], id);
      IdsCons(chats);
      assert r.Some? ==> exists i :: 1 <= i < |chats| && chats[i] == r.value && r.value.id == id &&
                                     (forall j :: 0 <= j < i ==> chats[j].id != id) by {
        if r.Some? {
          var k :| 0 <= k < |chats[1..]| && chats[1..][k] == r.value && r.value.id == id &&
                   (forall j :: 0 <= j < k ==> chats[1..][j].id != id);
          assert chats[k + 1] == r.value;
          forall j | 0 <= j < k + 1 ensures chats[j].id != id {
            if j > 0 {
              assert chats[j] == chats[1..][j - 1];
            }
          }
        }
      }
      r
  }

  /** `updateChatTitle`: every chat with that id gets the new title; nothing else changes. */
  function SetTitle(chats: seq<Chat>, id: string, title: string): (r: seq<Chat>)
    ensures |r| == |chats|
    ensures forall i :: 0 <= i < |chats| ==>
              && r[i].id == chats[i].id
              && r[i].title == (if chats[i].id == id then title else chats[i].title)
              && r[i].description == chats[i].description
              && r[i].messages == chats[i].messages
  {
    Map(chats, (c: Chat) => if c.id == id then c.(title := title) else c)
  }

  /** `updateChatDescription`: every chat with that id gets the new description; nothing else changes. */
  function SetDescription(chats: seq<Chat>, id: string, description: string): (r: seq<Chat>)
    ensures |r| == |chats|
    ensures forall i :: 0 <= i < |chats| ==>
              && r[i].id == chats[i].id
              && r[i].title == chats[i].title
              && r[i].description == (if chats[i].id == id then description else chats[i].description)
              && r[i].messages == chats[i].messages
  {
    Map(chats, (c: Chat) => if c.id == id then c.(description := description) else c)
  }

  /** `addMessage`: every chat with that id gets the message appended; nothing else changes. */
  function AppendMessage(chats: seq<Chat>, id: string, m: Message): (r: seq<Chat>)
    ensures |r| == |chats|
    ensures forall i :: 0 <= i < |chats| ==>
              && r[i].id == chats[i].id
              && r[i].title == chats[i].title
              && r[i].description == chats[i].description
              && r[i].messages == (if chats[i].id == id then chats[i].messages + [m] else chats[i].messages)
  {
    Map(chats, (c: Chat) => if c.id == id then c.(messages := c.messages + [m]) else c)
  }

  /** The filter predicate of `deleteChat`. */
  function OtherId(id: string): Chat -> bool
  {
    (c: Chat) => c.id != id
  }

  /** `deleteChat`: exactly the chats with another id survive, in their original order. */
  function Remove(chats: seq<Chat>, id: string): (r: seq<Chat>)
    ensures forall c :: c in r <==> c in chats && c.id != id
    ensures forall c :: multiset(r)[c] == if c.id != id then multiset(chats)[c] else 0
    ensures Subsequence(r, chats)
    ensures id !in Ids(r)
  {
    forall c ensures multiset(Filter(chats, OtherId(id)))[c] == if c.id != id then multiset(chats)[c] else 0 {
      FilterCounts(chats, OtherId(id), c);
    }
    Filter(chats, OtherId(id))
  }

  /** With unique ids, the lookup finds the one chat carrying the id. */
  lemma FindUnique(chats: seq<Chat>, i: int)
    requires UniqueIds(chats)
    requires 0 <= i < |chats|
    ensures Find(chats, chats[i].id) == Some(chats[i])
  {
    FindFirst(chats, chats[i].id, i);
  }

  /** The lookup returns the chat at the first index carrying the id. */
  lemma FindFirst(chats: seq<Chat>, id: string, i: int)
    requires 0 <= i < |chats| && chats[i].id == id
    requires forall j :: 0 <= j < i ==> chats[j].id != id
    ensures Find(chats, id) == Some(chats[i])
  {
    var r := Find(chats, id);
    assert Ids(chats)[i] == id;
    var k :| 0 <= k < |chats| && chats[k] == r.value && r.value.id == id &&
             (forall j :: 0 <= j < k ==> chats[j].id != id);
    assert k == i;
  }

  /** An update, a delete or an append naming an id that no chat has leaves the collection identical. */
  lemma AbsentIdIsNoOp(chats: seq<Chat>, id: string, title: string, description: string, m: Message)
    requires id !in Ids(chats)
    ensures SetTitle(chats, id, title) == chats
    ensures SetDescription(chats, id, description) == chats
    ensures AppendMessage(chats, id, m) == chats
    ensures Remove(chats, id) == chats
  {
    forall i | 0 <= i < |chats| ensures chats[i].id != id {
      assert Ids(chats)[i] == chats[i].id;
    }
  }

  /** Two appends to the same chat land in call order. */
  lemma AppendInCallOrder(chats: seq<Chat>, id: string, m1: Message, m2: Message)
    ensures var r := AppendMessage(AppendMessage(chats, id, m1), id, m2);
            |r| == |chats| &&
            forall i :: 0 <= i < |chats| ==>
              r[i].messages == (if chats[i].id == id then chats[i].messages + [m1, m2] else chats[i].messages)
  {
    var r := AppendMessage(AppendMessage(chats, id, m1), id, m2);
    forall i | 0 <= i < |chats| && chats[i].id == id
      ensures r[i].messages == chats[i].messages + [m1, m2]
    {
      assert chats[i].messages + [m1] + [m2] == chats[i].messages + [m1, m2];
    }
  }

  /** The map-based updates keep the sequence of ids, so they keep ids unique. */
  lemma UpdatesKeepIds(chats: seq<Chat>, id: string, title: string, description: string, m: Message)
    ensures Ids(SetTitle(chats, id, title)) == Ids(chats)
    ensures Ids(SetDescription(chats, id, description)) == Ids(chats)
    ensures Ids(AppendMessage(chats, id, m)) == Ids(chats)
    ensures UniqueIds(chats) ==> UniqueIds(SetTitle(chats, id, title))
    ensures UniqueIds(chats) ==> UniqueIds(SetDescription(chats, id, description))
    ensures UniqueIds(chats) ==> UniqueIds(AppendMessage(chats, id, m))
  {
  }

  /** Prepending a chat whose id is not in use keeps ids unique. */
  lemma CreateKeepsUnique(chats: seq<Chat>, newId: string)
    requires UniqueIds(chats)
    requires newId !in Ids(chats)
    ensures UniqueIds([NewChat(newId)] + chats)
  {
    var r := [NewChat(newId)] + chats;
    forall i, j | 0 <= i < j < |r| ensures r[i].id != r[j].id {
      if i == 0 {
        assert Ids(chats)[j - 1] == chats[j - 1].id;
      }
    }
  }

  /** Every element of a subsequence comes from the sequence it was taken from. */
  lemma {:induction false} SubsequenceMembers(xs: seq<Chat>, ys: seq<Chat>, c: Chat)
    requires Subsequence(xs, ys)
    requires c in xs
    ensures c in ys
    decreases |ys|
  {
    if xs[0] == ys[0] && Subsequence(xs[1..], ys[1..]) {
      if c != xs[0] {
        SubsequenceMembers(xs[1..], ys[1..], c);
      }
    } else {
      SubsequenceMembers(xs, ys[1..], c);
    }
  }

  /** Deleting elements cannot make two ids collide. */
  lemma {:induction false} SubsequenceKeepsUnique(xs: seq<Chat>, ys: seq<Chat>)
    requires Subsequence(xs, ys)
    requires UniqueIds(ys)
    ensures UniqueIds(xs)
    decreases |ys|
  {
    if ys == [] {
    } else if xs != [] && xs[0] == ys[0] && Subsequence(xs[1..], ys[1..]) {
      assert UniqueIds(ys[1..]);
      SubsequenceKeepsUnique(xs[1..], ys[1..]);
      forall j | 0 < j < |xs| ensures xs[0].id != xs[j].id {
        assert xs[j] == xs[1..][j - 1];
        SubsequenceMembers(xs[1..], ys[1..], xs[j]);
        var k :| 0 <= k < |ys[1..]| && ys[1..][k] == xs[j];
        assert ys[k + 1] == xs[j];
      }
    } else {
      assert UniqueIds(ys[1..]);
      SubsequenceKeepsUnique(xs, ys[1..]);
    }
  }

  /** With unique ids, deleting the id of the chat at index `i` removes that chat and no other. */
  lemma RemovesOne(chats: seq<Chat>, i: int)
    requires UniqueIds(chats)
    requires 0 <= i < |chats|
    ensures Remove(chats, chats[i].id) == chats[..i] + chats[i + 1..]
  {
    FilterDropsOne(chats, OtherId(chats[i].id), i);
  }

  /** Deleting from a collection split in two deletes from each part, so the
      survivors of each part stay together and in order. */
  lemma RemoveConcat(front: seq<Chat>, back: seq<Chat>, id: string)
    ensures Remove(front + back, id) == Remove(front, id) + Remove(back, id)
  {
    FilterConcat(front, back, OtherId(id));
  }

  /** Deleting keeps ids unique. */
  lemma RemoveKeepsUnique(chats: seq<Chat>, id: string)
    requires UniqueIds(chats)
    ensures UniqueIds(Remove(chats, id))
  {
    SubsequenceKeepsUnique(Remove(chats, id), chats);
  }

  /** The store object: its one field is replaced, never edited, by each action. */
  class Store {
    var chats: seq<Chat>

    /** The store starts with no chats. */
    constructor ()
      ensures chats == []
    {
      chats := [];
    }

    /** `loadChat`: a chat with the id when there is one, none otherwise. */
    function LoadChat(id: string): (r: Option<Chat>)
      reads this
      ensures r.None? <==> id !in Ids(chats)
      ensures r.Some? ==> r.value in chats && r.value.id == id
      ensures r.Some? ==> exists i :: 0 <= i < |chats| && chats[i] == r.value &&
                                      (forall j :: 0 <= j < i ==> chats[j].id != id)
    {
      Find(chats, id)
    }

    /** `createChat`, with the id that `generateId` would return passed in: the new chat comes first. */
    method CreateChat(newId: string) returns (id: string)
      requires newId !in Ids(chats)
      modifies this
      ensures id == newId
      ensures chats == [NewChat(newId)] + old(chats)
      ensures UniqueIds(old(chats)) ==> UniqueIds(chats)
    {
      id := newId;
      if UniqueIds(chats) {
        CreateKeepsUnique(chats, newId);
      }
      chats := [NewChat(id)] + chats;
    }

    method UpdateChatTitle(id: string, title: string)
      modifies this
      ensures chats == SetTitle(old(chats), id, title)
      ensures UniqueIds(old(chats)) ==> UniqueIds(chats)
    {
      chats := SetTitle(chats, id, title);
    }

    method UpdateChatDescription(id: string, description: string)
      modifies this
      ensures chats == SetDescription(old(chats), id, description)
      ensures UniqueIds(old(chats)) ==> UniqueIds(chats)
    {
      chats := SetDescription(chats, id, description);
    }

    method DeleteChat(id: string)
      modifies this
      ensures chats == Remove(old(chats), id)
      ensures UniqueIds(old(chats)) ==> UniqueIds(chats)
    {
      if UniqueIds(chats) {
        RemoveKeepsUnique(chats, id);
      }
      chats := Remove(chats, id);
    }

    method AddMessage(id: string, m: Message)
      modifies this
      ensures chats == AppendMessage(old(chats), id, m)
      ensures UniqueIds(old(chats)) ==> UniqueIds(chats)
    {
      chats := AppendMessage(chats, id, m);
    }
  }
}
