/**
 The state that the menu and start-up screens act on: the chat collection of
 the chat store together with the active chat id of the preferences store,
 and the outcome of one screen action. Also the invariant those actions keep
 for the cleanup policy: the collection is never empty, the active chat
 exists, and only the newest chat may be unused (have no messages), in which
 case it is the active one.
 */
module Session {
  import opened Options
  import opened ChatStore

  datatype State = State(chats: seq<Chat>, chatId: string)

  /** The state after a screen action and the route it navigated to, if it navigated. */
  datatype Step = Step(after: State, nav: Option<string>)

  /** The `router.replace` calls a step makes. */
  function Navigations(nav: Option<string>): seq<string>
  {
    match nav
    case None => []
    case Some(href) => [href]
  }

  predicate Unused(c: Chat)
  {
    |c.messages| == 0
  }

  /** A collection in which ids are unique and every chat but the newest has messages. */
  predicate WellFormedChats(chats: seq<Chat>)
  {
    && UniqueIds(chats)
    && forall i :: 0 < i < |chats| ==> !Unused(chats[i])
  }

  predicate Tidy(s: State)
  {
    && |s.chats| > 0
    && WellFormedChats(s.chats)
    && s.chatId in Ids(s.chats)
    && (Unused(s.chats[0]) ==> s.chatId == s.chats[0].id)
  }

  /** Sending messages on the chat screen (the store's `addMessage`) keeps the state tidy. */
  lemma AddMessageKeepsTidy(s: State, id: string, m: Message)
    requires Tidy(s)
    ensures Tidy(State(AppendMessage(s.chats, id, m), s.chatId))
  {
    UpdatesKeepIds(s.chats, id, "", "", m);
  }

  /** So do the title and description updates. */
  lemma UpdatesKeepTidy(s: State, id: string, title: string, description: string)
    requires Tidy(s)
    ensures Tidy(State(SetTitle(s.chats, id, title), s.chatId))
    ensures Tidy(State(SetDescription(s.chats, id, description), s.chatId))
  {
    UpdatesKeepIds(s.chats, id, title, description, Message("", User, []));
  }
}
