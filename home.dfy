/**
 The start-up screen (app/index.tsx): its effect makes sure there is a chat
 and that one is active, and it redirects to a chat screen.
 */
module Home {
  import opened ChatStore
  import opened Navigation
  import opened Session
  import GlobalStore

  /** The effect: with no chats, create one and make it active; otherwise make
      the first chat active. Afterwards the collection is non-empty and its
      first chat is active; exactly one chat was created if there were none, and
      an existing collection is left as it was. */
  function StartUpStep(s: State, newId: string): (t: State)
    ensures |t.chats| > 0 && t.chatId == t.chats[0].id
    ensures |s.chats| == 0 ==> t.chats == [NewChat(newId)] && t.chatId == newId
    ensures |s.chats| > 0 ==> t.chats == s.chats
  {
    if |s.chats| == 0 then State([NewChat(newId)], newId)
    else State(s.chats, s.chats[0].id)
  }

  /** The `href` of the `<Redirect>` the screen renders: a chat screen, for the
      first chat when there is one and for the stored active id otherwise. */
  function RedirectHref(chats: seq<Chat>, chatId: string): (r: string)
    ensures 6 <= |r| && r[..6] == "/chat/"
    ensures |chats| > 0 ==> r[6..] == chats[0].id
    ensures |chats| == 0 ==> r[6..] == chatId
  {
    if |chats| == 0 then ChatRoute(chatId) else ChatRoute(chats[0].id)
  }

  /** Once the effect has run, the redirect goes to the active chat. */
  lemma RedirectAfterStartUp(s: State, newId: string)
    ensures var t := StartUpStep(s, newId);
            RedirectHref(t.chats, t.chatId) == ChatRoute(t.chatId)
  {
  }

  /** On a render before the effect has run on an empty collection, the redirect
      goes to the chat the effect creates only if the stored id already was that
      chat's id. */
  lemma FirstRedirectIsStale(chatId: string, newId: string)
    ensures RedirectHref([], chatId) == ChatRoute(StartUpStep(State([], chatId), newId).chatId) <==> chatId == newId
  {
    if RedirectHref([], chatId) == ChatRoute(newId) {
      ChatRouteInjective(chatId, newId);
    }
  }

  /** Running the effect again on its own result changes nothing, whatever id
      `generateId` would then return. */
  lemma StartUpRerunChangesNothing(s: State, n1: string, n2: string)
    ensures StartUpStep(StartUpStep(s, n1), n2) == StartUpStep(s, n1)
  {
  }

  /** Starting from a well-formed collection, start-up establishes the invariant
      that the menu actions keep. */
  lemma StartUpMakesTidy(s: State, newId: string)
    requires WellFormedChats(s.chats)
    ensures Tidy(StartUpStep(s, newId))
  {
    var t := StartUpStep(s, newId);
    assert Ids(t.chats)[0] == t.chats[0].id;
  }

  method StartUp(store: Store, prefs: GlobalStore.Store, newId: string)
    modifies store, prefs
    ensures var t := StartUpStep(old(State(store.chats, prefs.chatId)), newId);
            && store.chats == t.chats
            && prefs.Snapshot() == GlobalStore.WithChatId(old(prefs.Snapshot()), t.chatId)
  {
    if |store.chats| == 0 {
      var id := store.CreateChat(newId);
      prefs.SetChatId(id);
    } else {
      prefs.SetChatId(store.chats[0].id);
    }
  }
}
