/**
 The menu screen (app/menu/index.tsx): creating, selecting and deleting chats,
 which drive the two stores and the router, and the title search over the
 chat list.
 */
module Menu {
  import opened Options
  import opened Sequences
  import opened ChatStore
  import opened Navigation
  import opened Session
  import GlobalStore

  /** `!loadChat(chatId)?.messages.length`: no chat has the active id, or the
      chat that has it has no messages. */
  function ActiveIsUnused(chats: seq<Chat>, chatId: string): (b: bool)
    ensures chatId !in Ids(chats) ==> b
    ensures forall i :: 0 <= i < |chats| && chats[i].id == chatId && (forall j :: 0 <= j < i ==> chats[j].id != chatId) ==>
              (b <==> Unused(chats[i]))
    ensures UniqueIds(chats) ==>
              forall i :: 0 <= i < |chats| && chats[i].id == chatId ==> (b <==> Unused(chats[i]))
  {
    assert forall i :: 0 <= i < |chats| && chats[i].id == chatId && (forall j :: 0 <= j < i ==> chats[j].id != chatId) ==>
             Find(chats, chatId) == Some(chats[i]) by {
      forall i | 0 <= i < |chats| && chats[i].id == chatId && (forall j :: 0 <= j < i ==> chats[j].id != chatId)
        ensures Find(chats, chatId) == Some(chats[i]) {
        FindFirst(chats, chatId, i);
      }
    }
    assert UniqueIds(chats) ==>
             forall i :: 0 <= i < |chats| && chats[i].id == chatId ==> Find(chats, chatId) == Some(chats[i]) by {
      if UniqueIds(chats) {
        forall i | 0 <= i < |chats| && chats[i].id == chatId ensures Find(chats, chatId) == Some(chats[i]) {
          FindUnique(chats, i);
        }
      }
    }
    match Find(chats, chatId)
    case None => true
    case Some(c) => Unused(c)
  }

  /** `handleCreateChat`; `newId` is what `generateId` would return. It always
      ends on the screen of the active chat and never loses a chat; it creates a
      chat exactly when the list is empty or the active chat has messages, and
      then the new chat comes first and is the active one. */
  function CreateChatStep(s: State, newId: string): (st: Step)
    ensures st.nav == Some(ChatRoute(st.after.chatId))
    ensures |st.after.chats| > 0
    ensures Subsequence(s.chats, st.after.chats)
    ensures if |s.chats| > 0 && ActiveIsUnused(s.chats, s.chatId) then st.after == s
            else st.after.chats == [NewChat(newId)] + s.chats && st.after.chatId == newId
  {
    SubsequenceRefl(s.chats);
    if |s.chats| > 0 && ActiveIsUnused(s.chats, s.chatId) then
      Step(s, Some(ChatRoute(s.chatId)))
    else
      assert ([NewChat(newId)] + s.chats)[1..] == s.chats;
      Step(State([NewChat(newId)] + s.chats, newId), Some(ChatRoute(newId)))
  }

  /** `chats.find(c => !c.messages.length)`: the first chat without messages, or none. */
  function FirstUnused(chats: seq<Chat>): (r: Option<Chat>)
    ensures r.None? <==> forall i :: 0 <= i < |chats| ==> !Unused(chats[i])
    ensures r.Some? ==> exists i :: 0 <= i < |chats| && chats[i] == r.value && Unused(r.value) &&
                                    (forall j :: 0 <= j < i ==> !Unused(chats[j]))
    decreases |chats|
  {
    if chats == [] then None
    else if Unused(chats[0]) then Some(chats[0])
    else
      var r := FirstUnused(chats[1..]);
      assert r.Some? ==> exists i :: 1 <= i < |chats| && chats[i] == r.value && Unused(r.value) &&
                                     (forall j :: 0 <= j < i ==> !Unused(chats[j]));
      r
  }

  /** The chat at the first index without messages is the one `find` returns. */
  lemma FirstUnusedAt(chats: seq<Chat>, i: int)
    requires 0 <= i < |chats| && Unused(chats[i])
    requires forall j :: 0 <= j < i ==> !Unused(chats[j])
    ensures FirstUnused(chats) == Some(chats[i])
  {
    var k :| 0 <= k < |chats| && chats[k] == FirstUnused(chats).value && Unused(chats[k]) &&
             (forall j :: 0 <= j < k ==> !Unused(chats[j]));
    assert k == i;
  }

  /** With unique ids, deleting the id of the first chat without messages cuts
      out exactly that chat, so every chat with messages stays. */
  lemma RemoveFirstUnused(chats: seq<Chat>)
    requires FirstUnused(chats).Some?
    ensures var r := Remove(chats, FirstUnused(chats).value.id);
            UniqueIds(chats) ==>
              && |chats| - 1 <= |r|
              && (forall x :: x in chats && !Unused(x) ==> x in r)
              && forall i :: 0 <= i < |chats| && Unused(chats[i]) && (forall j :: 0 <= j < i ==> !Unused(chats[j])) ==>
                   r == chats[..i] + chats[i + 1..]
  {
    if UniqueIds(chats) {
      var r := Remove(chats, FirstUnused(chats).value.id);
      forall i | 0 <= i < |chats| && Unused(chats[i]) && (forall j :: 0 <= j < i ==> !Unused(chats[j]))
        ensures r == chats[..i] + chats[i + 1..] {
        FirstUnusedAt(chats, i);
        RemovesOne(chats, i);
      }
      var k :| 0 <= k < |chats| && chats[k] == FirstUnused(chats).value && Unused(chats[k]) &&
               (forall j :: 0 <= j < k ==> !Unused(chats[j]));
      RemovesOne(chats, k);
    }
  }

  /** The collection after the cleanup that `handleSelectChat` makes before
      switching to `target`: an order-preserving selection of the old one that
      is the old one when `target` is already active; with unique ids it loses
      at most one chat and keeps every chat with messages. */
  function CleanupBeforeSwitch(chats: seq<Chat>, chatId: string, target: string): (r: seq<Chat>)
    ensures Subsequence(r, chats)
    ensures |r| <= |chats|
    ensures target == chatId ==> r == chats
    ensures UniqueIds(chats) ==> |chats| - 1 <= |r|
    ensures UniqueIds(chats) ==> forall x :: x in chats && !Unused(x) ==> x in r
    ensures target != chatId && FirstUnused(chats).Some? ==> r == Remove(chats, FirstUnused(chats).value.id)
    ensures UniqueIds(chats) && target != chatId ==>
              forall i :: 0 <= i < |chats| && Unused(chats[i]) && (forall j :: 0 <= j < i ==> !Unused(chats[j])) ==>
                r == chats[..i] + chats[i + 1..]
    ensures (forall i :: 0 <= i < |chats| ==> !Unused(chats[i])) ==> r == chats
  {
    if target != chatId then
      match FirstUnused(chats)
      case Some(e) =>
        var r := Remove(chats, e.id);
        RemoveFirstUnused(chats);
        SubsequenceLength(r, chats);
        r
      case None =>
        SubsequenceRefl(chats);
        chats
    else
      SubsequenceRefl(chats);
      chats
  }

  /** `handleSelectChat(c)`: `c` becomes active and is navigated to, after the cleanup. */
  function SelectChatStep(s: State, c: Chat): (st: Step)
    ensures st.after.chatId == c.id
    ensures st.nav == Some(ChatRoute(c.id))
    ensures Subsequence(st.after.chats, s.chats)
    ensures |st.after.chats| <= |s.chats|
    ensures c.id == s.chatId ==> st.after.chats == s.chats
    ensures UniqueIds(s.chats) ==> |s.chats| - 1 <= |st.after.chats|
    ensures UniqueIds(s.chats) ==> forall x :: x in s.chats && !Unused(x) ==> x in st.after.chats
    ensures c.id != s.chatId && FirstUnused(s.chats).Some? ==>
              st.after.chats == Remove(s.chats, FirstUnused(s.chats).value.id)
    ensures UniqueIds(s.chats) && c.id != s.chatId ==>
              forall i :: 0 <= i < |s.chats| && Unused(s.chats[i]) && (forall j :: 0 <= j < i ==> !Unused(s.chats[j])) ==>
                st.after.chats == s.chats[..i] + s.chats[i + 1..]
    ensures (forall i :: 0 <= i < |s.chats| ==> !Unused(s.chats[i])) ==> st.after.chats == s.chats
  {
    Step(State(CleanupBeforeSwitch(s.chats, s.chatId, c.id), c.id), Some(ChatRoute(c.id)))
  }

  /** `handleDeleteChat(c)`; `newId` is what `generateId` would return if the
      collection empties. Deleting a chat without messages does nothing at all.
      Deleting one with messages removes exactly the chats with its id, keeps
      every other chat, and never leaves the collection empty: if nothing
      remains, a new chat is created, made active and navigated to; otherwise
      there is no navigation, and the active id moves to the first remaining
      chat only if the deleted chat was the active one. */
  function DeleteChatStep(s: State, c: Chat, newId: string): (st: Step)
    ensures Unused(c) ==> st == Step(s, None)
    ensures !Unused(c) ==> |st.after.chats| > 0
    ensures !Unused(c) ==> forall x :: x in s.chats && x.id != c.id ==> x in st.after.chats
    ensures !Unused(c) && |Remove(s.chats, c.id)| == 0 ==>
              st.after == State([NewChat(newId)], newId) && st.nav == Some(ChatRoute(newId))
    ensures !Unused(c) && |Remove(s.chats, c.id)| > 0 ==>
              var next := Remove(s.chats, c.id);
              && st.after.chats == next
              && c.id !in Ids(st.after.chats)
              && st.nav == None
              && st.after.chatId == (if c.id == s.chatId then next[0].id else s.chatId)
  {
    if Unused(c) then Step(s, None)
    else
      var next := Remove(s.chats, c.id);
      if |next| == 0 then Step(State([NewChat(newId)], newId), Some(ChatRoute(newId)))
      else if c.id == s.chatId then Step(State(next, next[0].id), None)
      else Step(State(next, s.chatId), None)
  }

  // ---------------------------------------------------------------------------
  // What the three actions do to the invariant

  /** In a tidy state the active chat exists, so creating navigates to it when it is unused. */
  lemma CreateChatKeepsTidy(s: State, newId: string)
    requires Tidy(s)
    requires newId !in Ids(s.chats)
    ensures Tidy(CreateChatStep(s, newId).after)
  {
    if !ActiveIsUnused(s.chats, s.chatId) {
      // The active chat has messages; an unused newest chat would have been the active one.
      assert Ids(s.chats)[0] == s.chats[0].id;
      assert !Unused(s.chats[0]);
      var r := [NewChat(newId)] + s.chats;
      assert CreateChatStep(s, newId).after == State(r, newId);
      CreateKeepsUnique(s.chats, newId);
      forall i | 0 < i < |r| ensures !Unused(r[i]) {
        assert r[i] == s.chats[i - 1];
      }
      assert Ids(r)[0] == newId;
    }
  }

  /** A listed chat's id is among the ids. */
  lemma MemberId(chats: seq<Chat>, c: Chat)
    requires c in chats
    ensures c.id in Ids(chats)
  {
    var k :| 0 <= k < |chats| && chats[k] == c;
    assert Ids(chats)[k] == c.id;
  }

  /** In a tidy state the only chat that can be unused is the newest one. */
  lemma FirstUnusedIsNewest(s: State)
    requires Tidy(s)
    requires FirstUnused(s.chats).Some?
    ensures FirstUnused(s.chats).value == s.chats[0]
    ensures s.chatId == s.chats[0].id
  {
    var e := FirstUnused(s.chats).value;
    var i :| 0 <= i < |s.chats| && s.chats[i] == e && Unused(e);
    assert i == 0;
  }

  /** Without the newest chat, a tidy collection has only chats with messages. */
  lemma TailHasMessages(chats: seq<Chat>)
    requires WellFormedChats(chats)
    requires |chats| > 0
    ensures UniqueIds(chats[1..])
    ensures forall j :: 0 <= j < |chats[1..]| ==> !Unused(chats[1..][j])
  {
    forall j | 0 <= j < |chats[1..]| ensures !Unused(chats[1..][j]) {
      assert chats[1..][j] == chats[j + 1];
    }
  }

  /** In a tidy state, selecting a listed chat keeps the state tidy; in particular
      the selected chat survives the cleanup, so the new active id is never dangling. */
  lemma SelectChatKeepsTidy(s: State, c: Chat)
    requires Tidy(s)
    requires c in s.chats
    ensures Tidy(SelectChatStep(s, c).after)
    ensures c in SelectChatStep(s, c).after.chats
  {
    var r := SelectChatStep(s, c).after.chats;
    if c.id != s.chatId && FirstUnused(s.chats).Some? {
      FirstUnusedIsNewest(s);
      RemovesOne(s.chats, 0);
      assert r == s.chats[1..];
      assert c != s.chats[0];
      TailHasMessages(s.chats);
    } else {
      assert r == s.chats;
    }
    assert c in r;
    MemberId(r, c);
  }

  /** Deleting one chat of a well-formed collection keeps it well-formed. */
  lemma DropKeepsWellFormed(chats: seq<Chat>, i: int)
    requires WellFormedChats(chats)
    requires 0 <= i < |chats|
    ensures WellFormedChats(chats[..i] + chats[i + 1..])
  {
    var next := chats[..i] + chats[i + 1..];
    assert |next| == |chats| - 1;
    RemovesOne(chats, i);
    RemoveKeepsUnique(chats, chats[i].id);
    forall j | 0 < j < |next| ensures !Unused(next[j]) {
      if j < i {
        assert next[j] == chats[j];
      } else {
        assert next[j] == chats[j + 1];
      }
    }
  }

  /** Deleting the chat at index `i` keeps every other chat. */
  lemma DropKeepsOthers(chats: seq<Chat>, i: int, k: int)
    requires 0 <= i < |chats| && 0 <= k < |chats| && k != i
    ensures chats[k] in chats[..i] + chats[i + 1..]
  {
    var next := chats[..i] + chats[i + 1..];
    if k < i {
      assert next[k] == chats[k];
    } else {
      assert next[k - 1] == chats[k];
    }
  }

  /** In a tidy state, deleting a listed chat keeps the state tidy. */
  lemma DeleteChatKeepsTidy(s: State, c: Chat, newId: string)
    requires Tidy(s)
    requires c in s.chats
    ensures Tidy(DeleteChatStep(s, c, newId).after)
  {
    if !Unused(c) {
      var i :| 0 <= i < |s.chats| && s.chats[i] == c;
      RemovesOne(s.chats, i);
      var next := s.chats[..i] + s.chats[i + 1..];
      if |next| == 0 {
        assert Ids([NewChat(newId)])[0] == newId;
      } else if c.id == s.chatId {
        DropKeepsWellFormed(s.chats, i);
        assert Ids(next)[0] == next[0].id;
      } else {
        DropInactiveKeepsTidy(s, i);
      }
    }
  }

  /** In a tidy state, cutting out a chat that is not the active one keeps the state tidy. */
  lemma DropInactiveKeepsTidy(s: State, i: int)
    requires Tidy(s)
    requires 0 <= i < |s.chats| && s.chats[i].id != s.chatId
    ensures Tidy(State(s.chats[..i] + s.chats[i + 1..], s.chatId))
  {
    var next := s.chats[..i] + s.chats[i + 1..];
    DropKeepsWellFormed(s.chats, i);
    var k :| 0 <= k < |s.chats| && Ids(s.chats)[k] == s.chatId;
    assert k != i;
    DropKeepsOthers(s.chats, i, k);
    MemberId(next, s.chats[k]);
    if i == 0 {
      assert next[0] == s.chats[1];
    } else {
      assert next[0] == s.chats[0];
    }
  }

  /** Outside a tidy state, selecting the first unused chat while another chat is
      active deletes the selected chat itself and leaves the active id dangling. */
  lemma SelectCanDangleOutsideTidy()
    ensures var m := Message("m", User, [Text("hi")]);
            var a := Chat("a", "A", "", [m]);
            var e := Chat("e", "", "", []);
            var st := SelectChatStep(State([a, e], "a"), e);
            st.after.chatId == "e" && "e" !in Ids(st.after.chats)
  {
    var m := Message("m", User, [Text("hi")]);
    var a := Chat("a", "A", "", [m]);
    var e := Chat("e", "", "", []);
    assert FirstUnused([a, e]) == Some(e) by {
      assert [a, e][1..] == [e];
    }
  }

  // ---------------------------------------------------------------------------
  // The actions as the screen runs them, over the stores and the router

  method HandleCreateChat(store: Store, prefs: GlobalStore.Store, router: Router, newId: string)
    requires newId !in Ids(store.chats)
    modifies store, prefs, router
    ensures var st := CreateChatStep(old(State(store.chats, prefs.chatId)), newId);
            && store.chats == st.after.chats
            && prefs.Snapshot() == GlobalStore.WithChatId(old(prefs.Snapshot()), st.after.chatId)
            && router.history == old(router.history) + Navigations(st.nav)
  {
    var chatId := prefs.chatId;
    if |store.chats| > 0 {
      var chat := store.LoadChat(chatId);
      if chat.None? || |chat.value.messages| == 0 {
        router.Replace(ChatRoute(chatId));
        return;
      }
    }
    var id := store.CreateChat(newId);
    prefs.SetChatId(id);
    router.Replace(ChatRoute(id));
  }

  method HandleSelectChat(store: Store, prefs: GlobalStore.Store, router: Router, c: Chat)
    modifies store, prefs, router
    ensures var st := SelectChatStep(old(State(store.chats, prefs.chatId)), c);
            && store.chats == st.after.chats
            && prefs.Snapshot() == GlobalStore.WithChatId(old(prefs.Snapshot()), st.after.chatId)
            && router.history == old(router.history) + Navigations(st.nav)
  {
    var chats := store.chats;
    var chatId := prefs.chatId;
    if c.id != chatId {
      var unused := FirstUnused(chats);
      if unused.Some? {
        store.DeleteChat(unused.value.id);
      }
    }
    prefs.SetChatId(c.id);
    router.Replace(ChatRoute(c.id));
  }

  method HandleDeleteChat(store: Store, prefs: GlobalStore.Store, router: Router, c: Chat, newId: string)
    modifies store, prefs, router
    ensures var st := DeleteChatStep(old(State(store.chats, prefs.chatId)), c, newId);
            && store.chats == st.after.chats
            && prefs.Snapshot() == GlobalStore.WithChatId(old(prefs.Snapshot()), st.after.chatId)
            && router.history == old(router.history) + Navigations(st.nav)
  {
    var chatId := prefs.chatId;
    if |c.messages| == 0 {
      return;
    }
    store.DeleteChat(c.id);
    // The collection is read again after the delete; store updates are synchronous.
    var next := store.chats;
    if |next| == 0 {
      var id := store.CreateChat(newId);
      prefs.SetChatId(id);
      router.Replace(ChatRoute(id));
      return;
    }
    if c.id == chatId {
      prefs.SetChatId(next[0].id);
    }
  }

  // ---------------------------------------------------------------------------
  // Search

  /** `toLowerCase`, on ASCII letters only. */
  function LowerChar(ch: char): char
  {
    if 'A' <= ch <= 'Z' then (ch as int - 'A' as int + 'a' as int) as char else ch
  }

  function Lower(s: string): (r: string)
    ensures |r| == |s|
    ensures forall i :: 0 <= i < |s| ==> r[i] == LowerChar(s[i]) && !('A' <= r[i] <= 'Z')
  {
    Map(s, LowerChar)
  }

  /** Lowercasing twice is lowercasing once. */
  lemma LowerIdempotent(s: string)
    ensures Lower(Lower(s)) == Lower(s)
  {
  }

  /** `sub` occurs in `s` starting at position `k`. */
  predicate OccursAt(s: string, sub: string, k: int)
  {
    0 <= k <= |s| - |sub| && s[k..k + |sub|] == sub
  }

  /** `s.includes(sub)`: `sub` occurs in `s` at some position. */
  function Contains(s: string, sub: string): (b: bool)
    ensures b <==> exists k :: OccursAt(s, sub, k)
    decreases |s|
  {
    if |sub| <= |s| && s[..|sub|] == sub then
      assert OccursAt(s, sub, 0);
      true
    else if s == [] then false
    else
      var b := Contains(s[1..], sub);
      assert b ==> exists k :: OccursAt(s, sub, k) by {
        if b {
          var k :| OccursAt(s[1..], sub, k);
          assert s[k + 1..k + 1 + |sub|] == s[1..][k..k + |sub|];
          assert OccursAt(s, sub, k + 1);
        }
      }
      assert (exists k :: OccursAt(s, sub, k)) ==> b by {
        if exists k :: OccursAt(s, sub, k) {
          var k :| OccursAt(s, sub, k);
          assert k != 0;
          assert s[1..][k - 1..k - 1 + |sub|] == s[k..k + |sub|];
          assert OccursAt(s[1..], sub, k - 1);
        }
      }
      b
  }

  /** The filter predicate of the search, given the lowercased query. */
  function TitleContains(needle: string): Chat -> bool
  {
    (c: Chat) => Contains(Lower(c.title), needle)
  }

  /** `displayChats`: with a non-empty query and a non-empty list, the chats
      whose lowercased title contains the lowercased query, in list order;
      otherwise all chats. */
  function DisplayChats(chats: seq<Chat>, query: string): (r: seq<Chat>)
    ensures Subsequence(r, chats)
    ensures query == "" ==> r == chats
    ensures query != "" ==> forall c :: c in r <==> c in chats && Contains(Lower(c.title), Lower(query))
    ensures query != "" ==>
              forall c :: multiset(r)[c] == if Contains(Lower(c.title), Lower(query)) then multiset(chats)[c] else 0
  {
    if |chats| > 0 && query != "" then
      forall c ensures multiset(Filter(chats, TitleContains(Lower(query))))[c] ==
                       if Contains(Lower(c.title), Lower(query)) then multiset(chats)[c] else 0 {
        FilterCounts(chats, TitleContains(Lower(query)), c);
      }
      Filter(chats, TitleContains(Lower(query)))
    else
      SubsequenceRefl(chats);
      chats
  }

  /** The search ignores the case of the query. */
  lemma SearchIgnoresQueryCase(chats: seq<Chat>, query: string)
    ensures DisplayChats(chats, Lower(query)) == DisplayChats(chats, query)
  {
    LowerIdempotent(query);
    assert (Lower(query) == "") == (query == "");
  }

  /** A query in another case still finds the title, and titles without it are hidden. */
  lemma SearchExample()
    ensures DisplayChats([Chat("c1", "Hello", "", []), Chat("c2", "World", "", [])], "wOr")
            == [Chat("c2", "World", "", [])]
  {
    var hello := Chat("c1", "Hello", "", []);
    var world := Chat("c2", "World", "", []);
    assert Lower("wOr") == "wor";
    TitleExample(hello, world);
    var p := TitleContains("wor");
    assert [hello, world][1..] == [world];
    assert Filter([world], p) == [world];
  }

  /** The two titles of the search example: "World" contains "wor" once lowercased, "Hello" does not. */
  lemma TitleExample(hello: Chat, world: Chat)
    requires hello.title == "Hello" && world.title == "World"
    ensures TitleContains("wor")(world) && !TitleContains("wor")(hello)
  {
    var w := Lower(world.title);
    assert w[0] == 'w' && w[1] == 'o' && w[2] == 'r';
    assert w[0..3] == "wor";
    assert OccursAt(w, "wor", 0);
    var h := Lower(hello.title);
    forall k | 0 <= k <= 2 ensures !OccursAt(h, "wor", k) {
      assert h[k] == LowerChar(hello.title[k]) != 'w';
      assert h[k..k + 3][0] == h[k];
    }
  }
}
