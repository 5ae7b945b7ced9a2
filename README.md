# Chat-session bookkeeping of a mobile AI chat client, in Dafny

This project models the local bookkeeping of a React Native chat client for an
AI gateway:

- the **chat collection store** (`hooks/useChatStore.ts`): an ordered
  collection of chats, newest first, with `loadChat`, `createChat`,
  `updateChatTitle`, `updateChatDescription`, `deleteChat` and `addMessage`;
- the **global preferences store** (`hooks/useGlobalStore.ts`): the active
  chat id, the selected model and the API key, each with its own setter;
- the **menu screen's actions** (`app/menu/index.tsx`): new chat, select
  chat, delete chat, and the title search over the chat list;
- the **start-up screen** (`app/index.tsx`): make sure a chat exists and is
  active, then redirect to a chat screen.

Layout, one module per file:

| file | module | what it holds |
|---|---|---|
| `options.dfy` | `Options` | `Option`, for `T \| undefined` |
| `sequences.dfy` | `Sequences` | `Map` and `Filter` as the source's array methods use them, and `Subsequence` |
| `chat_store.dfy` | `ChatStore` | `Chat`, the pure collection updates and their laws, and class `Store` whose one field `chats` each action replaces |
| `global_store.dfy` | `GlobalStore` | the preferences record as a value (`Prefs`), its setters and laws, and class `Store` with the three fields |
| `navigation.dfy` | `Navigation` | `ChatRoute` (`/chat/{id}`) and class `Router`, which records every `replace` call |
| `session.dfy` | `Session` | the state the screens act on (chats plus active id), the outcome of one action, and the invariant `Tidy` |
| `menu.dfy` | `Menu` | each menu action as a pure step function, the lemmas about it, and the same action as a method over the two stores and the router; the search |
| `home.dfy` | `Home` | the start-up step, its lemmas, the start-up method and the redirect target |

Each store action and screen handler is a method that changes the store
objects in place, and its `ensures` ties the new state to a pure function of
the old state. The properties the source promises are proved as lemmas about
those functions. The screens' handlers are proved to keep an invariant,
`Session.Tidy`, that spells out the cleanup policy:

- the collection is never empty;
- ids are unique;
- the active id names a chat in the collection;
- only the newest chat may have no messages, and if it has none it is the
  active one.

Start-up establishes `Tidy` from any collection with unique ids in which only
the newest chat may be empty. Each menu action keeps it, and so do
`addMessage` and the title and description updates.

Two points about where a behaviour lives, and what the code actually does:

- Title and description are set only once per chat, but the guard for that is
  in the chat screen: it updates the description only while the chat has none
  (app/chat/[chatId]/index.tsx:72-74) and the title only while it has none
  (app/chat/[chatId]/index.tsx:124-125). The store's `updateChatTitle` and
  `updateChatDescription` overwrite unconditionally
  (hooks/useChatStore.ts:44-57), and the model does the same; the chat screen
  is not part of this model.
- The comment above `handleSelectChat` says that the empty chat created just
  before is deleted when the user then picks another chat
  (app/menu/index.tsx:38-39). The code deletes the *first* chat in the list
  that has no messages, whichever chat that is (app/menu/index.tsx:40-43). In
  a `Tidy` state that chat is the newest one, which is then also the active
  one (`Menu.FirstUnusedIsNewest`). Outside a `Tidy` state the code can delete
  the chat being selected and so leave the active id naming no chat
  (`Menu.SelectCanDangleOutsideTidy`).

## Model

| member | source | states |
|---|---|---|
| `ChatStore.Find` | hooks/useChatStore.ts:29-31 | none is returned exactly when no chat has the id; otherwise the result is a chat with that id and no earlier chat has that id |
| `ChatStore.Store.LoadChat` | hooks/useChatStore.ts:29-31 | the store's lookup returns none exactly when the id is absent, else the first listed chat with that id; it has no precondition, so it never fails |
| `ChatStore.FindFirst` | hooks/useChatStore.ts:29-31 | the lookup returns the chat at the first index carrying the id |
| `ChatStore.FindUnique` | hooks/useChatStore.ts:29-31 | when ids are unique, the lookup of a listed chat's id returns that very chat |
| `ChatStore.Store.constructor` | hooks/useChatStore.ts:28 | the store starts with no chats |
| `ChatStore.NewChat` | hooks/useChatStore.ts:34-39 | the new chat carries the given id, an empty title, an empty description and no messages |
| `ChatStore.Store.CreateChat` | hooks/useChatStore.ts:32-43 | returns the fresh id; the new collection is a chat with that id, empty title, empty description and no messages, followed by the old collection; unique ids stay unique |
| `ChatStore.CreateKeepsUnique` | hooks/useChatStore.ts:33-40 | prepending a chat with an unused id to a collection with unique ids keeps ids unique |
| `ChatStore.SetTitle` | hooks/useChatStore.ts:44-50 | same length and order; chats with the id get the new title; every other field of every chat, and every field of other chats, is unchanged |
| `ChatStore.Store.UpdateChatTitle` | hooks/useChatStore.ts:44-50 | the store's collection becomes `SetTitle` of the old one; unique ids stay unique |
| `ChatStore.SetDescription` | hooks/useChatStore.ts:51-57 | same length and order; only the description of chats with the id changes |
| `ChatStore.Store.UpdateChatDescription` | hooks/useChatStore.ts:51-57 | the store's collection becomes `SetDescription` of the old one; unique ids stay unique |
| `ChatStore.Remove` | hooks/useChatStore.ts:58-62 | a chat survives exactly when it was listed and has another id, and then every copy of it survives; the survivors keep their relative order; no chat with the id remains |
| `ChatStore.RemovesOne` | hooks/useChatStore.ts:58-62 | with unique ids, deleting the id of the chat at index i yields the collection with exactly that chat cut out |
| `ChatStore.RemoveConcat` | hooks/useChatStore.ts:58-62 | deleting from two collections joined is deleting from each and joining the results |
| `ChatStore.RemoveKeepsUnique` | hooks/useChatStore.ts:58-62 | deleting keeps ids unique |
| `ChatStore.SubsequenceKeepsUnique` | hooks/useChatStore.ts:60 | any order-preserving selection of a collection with unique ids has unique ids |
| `ChatStore.Store.DeleteChat` | hooks/useChatStore.ts:58-62 | the store's collection becomes `Remove` of the old one; unique ids stay unique |
| `ChatStore.AppendMessage` | hooks/useChatStore.ts:63-71 | same length and order; the matching chats' messages become the old messages followed by the new one; nothing else changes |
| `ChatStore.AppendInCallOrder` | hooks/useChatStore.ts:63-71 | two appends to a chat leave its messages as old + [m1, m2], in call order; other chats keep theirs |
| `ChatStore.Store.AddMessage` | hooks/useChatStore.ts:63-71 | the store's collection becomes `AppendMessage` of the old one; unique ids stay unique |
| `ChatStore.AbsentIdIsNoOp` | hooks/useChatStore.ts:44-71 | title, description and message updates, and deletes, naming an id no chat has leave the collection identical |
| `ChatStore.UpdatesKeepIds` | hooks/useChatStore.ts:44-71 | the three map-based updates keep the sequence of ids, hence keep ids unique |
| `Sequences.Map` | hooks/useChatStore.ts:46-48 | `map` keeps the length and applies the function at each position |
| `Sequences.Filter` | hooks/useChatStore.ts:60 | `filter` keeps exactly the elements that satisfy the predicate, as an order-preserving subsequence, and keeps everything if all satisfy it |
| `Sequences.FilterCounts` | hooks/useChatStore.ts:60 | `filter` keeps every copy of an element that satisfies the predicate and no copy of one that does not |
| `Sequences.FilterConcat` | hooks/useChatStore.ts:60 | filtering a concatenation is the concatenation of the filtered parts |
| `GlobalStore.Store.constructor` | hooks/useGlobalStore.ts:27-32 | the initial state is chat id "", model label and value unset, API key "" |
| `GlobalStore.WithChatId` | hooks/useGlobalStore.ts:33 | only the chat id changes |
| `GlobalStore.Store.SetChatId` | hooks/useGlobalStore.ts:33 | the store's record becomes the old one with only the chat id replaced |
| `GlobalStore.WithSelectedModel` | hooks/useGlobalStore.ts:34 | only the selected model changes |
| `GlobalStore.Store.SetSelectedModel` | hooks/useGlobalStore.ts:34 | the store's record becomes the old one with only the selected model replaced |
| `GlobalStore.WithApiKey` | hooks/useGlobalStore.ts:35 | only the API key changes |
| `GlobalStore.Store.SetApiKey` | hooks/useGlobalStore.ts:35 | the store's record becomes the old one with only the API key replaced |
| `GlobalStore.LastWriteWins` | hooks/useGlobalStore.ts:33-35 | for each of the three setters, of two calls in a row the later value is what remains; in particular, repeating a call with the same value changes nothing |
| `GlobalStore.SettersCommute` | hooks/useGlobalStore.ts:33-35 | setters of different fields commute |
| `Session.AddMessageKeepsTidy` | hooks/useChatStore.ts:63-71 | appending a message keeps the screens' invariant |
| `Session.UpdatesKeepTidy` | hooks/useChatStore.ts:44-57 | title and description updates keep the screens' invariant |
| `Menu.ActiveIsUnused` | app/menu/index.tsx:24-25 | true when no chat has the active id; otherwise true exactly when the first chat with that id has no messages (with unique ids, the one chat with that id) |
| `Menu.CreateChatStep` | app/menu/index.tsx:20-35 | the new-chat action always navigates to the active chat's screen, leaves a non-empty list and loses no chat; if the list is non-empty and the active chat is missing or has no messages, nothing changes; otherwise a new empty chat is prepended and made active |
| `Menu.CreateChatKeepsTidy` | app/menu/index.tsx:20-35 | from a tidy state with an unused fresh id, the new-chat action leaves a tidy state |
| `Menu.HandleCreateChat` | app/menu/index.tsx:20-35 | the action over the stores and the router has exactly the outcome of `CreateChatStep`: collection, active id (nothing else in the preferences) and one `replace` call |
| `Menu.FirstUnused` | app/menu/index.tsx:41 | none exactly when every chat has messages; otherwise a listed chat without messages with none before it |
| `Menu.CleanupBeforeSwitch` | app/menu/index.tsx:40-43 | switching to another chat deletes the id of the first chat without messages; with unique ids that cuts out exactly the chat at the first index without messages, so at most one chat is lost and every chat with messages is kept; when every chat has messages, or when switching to the active chat, nothing is deleted; the result is always an order-preserving selection of the old collection |
| `Menu.RemoveFirstUnused` | app/menu/index.tsx:41-42 | with unique ids, deleting the id of the first chat without messages cuts out exactly the chat at the first index without messages |
| `Menu.FirstUnusedAt` | app/menu/index.tsx:41 | the chat at the first index without messages is what `find` returns |
| `Menu.SelectChatStep` | app/menu/index.tsx:37-48 | selecting makes the chat active and navigates to it; selecting another chat first deletes the id of the first chat without messages, which with unique ids cuts out exactly that chat and keeps every chat with messages; selecting the active chat, or any chat when every chat has messages, deletes nothing |
| `Menu.FirstUnusedIsNewest` | app/menu/index.tsx:41 | in a tidy state the first chat without messages is the newest chat, and that chat is the active one |
| `Menu.SelectChatKeepsTidy` | app/menu/index.tsx:37-48 | from a tidy state, selecting a listed chat leaves a tidy state in which the selected chat is still listed |
| `Menu.SelectCanDangleOutsideTidy` | app/menu/index.tsx:40-47 | with [a (has messages, active), e (no messages)], selecting e deletes e and makes the deleted id active |
| `Menu.HandleSelectChat` | app/menu/index.tsx:37-48 | the action over the stores and the router has exactly the outcome of `SelectChatStep` |
| `Menu.DeleteChatStep` | app/menu/index.tsx:50-69 | deleting a chat without messages changes nothing and does not navigate; deleting one with messages keeps every chat with another id and never leaves the collection empty; if the delete emptied it, a new chat is created, made active and navigated to; otherwise the collection is the old one without that id, there is no navigation, and the active id becomes the first remaining chat's only if the deleted chat was the active one |
| `Menu.DeleteChatKeepsTidy` | app/menu/index.tsx:50-69 | from a tidy state, deleting a listed chat leaves a tidy state |
| `Menu.HandleDeleteChat` | app/menu/index.tsx:50-69 | the action over the stores and the router, re-reading the collection after the delete, has exactly the outcome of `DeleteChatStep` |
| `Menu.Lower` | app/menu/index.tsx:75 | same length; each character is lowercased on its own and no upper-case ASCII letter remains |
| `Menu.LowerIdempotent` | app/menu/index.tsx:75 | lowercasing twice equals lowercasing once |
| `Menu.Contains` | app/menu/index.tsx:75 | true exactly when the needle occurs at some position of the text |
| `Menu.DisplayChats` | app/menu/index.tsx:71-76 | the shown chats are an order-preserving selection of the chats; an empty query shows all chats; with a non-empty query, a chat is shown exactly when its lowercased title contains the lowercased query, and then every copy of it is shown |
| `Menu.SearchIgnoresQueryCase` | app/menu/index.tsx:73-76 | searching for the lowercased query shows the same list as searching for the query |
| `Menu.SearchExample` | app/menu/index.tsx:71-76 | with chats titled "Hello" and "World", the query "wOr" shows only "World" |
| `Home.StartUpStep` | app/index.tsx:13-20 | after start-up the collection is non-empty and its first chat is active; with no chats exactly one new chat is created and made active; with chats the collection is unchanged |
| `Home.StartUpRerunChangesNothing` | app/index.tsx:13-20 | running the effect again on its own result changes nothing, whatever id would be generated |
| `Home.RedirectHref` | app/index.tsx:22-26 | the redirect goes to a chat screen: the first chat's when there is one, the stored active id's otherwise |
| `Home.RedirectAfterStartUp` | app/index.tsx:13-26 | once the effect has run, the redirect goes to the active chat's screen |
| `Home.FirstRedirectIsStale` | app/index.tsx:23 | before the effect has run on an empty collection, the redirect reaches the chat the effect creates exactly when the stored id already was that chat's id; on a first launch the stored id is the initial `""`, so that first render's redirect is `/chat/`, ahead of the chat the effect then creates |
| `Navigation.ChatRouteInjective` | app/menu/index.tsx:47 | different chat ids give different chat screen routes |
| `Navigation.Router.Replace` | app/menu/index.tsx:47 | each `replace` call appends its target to the router's history and changes nothing else |
| `Home.StartUpMakesTidy` | app/index.tsx:13-20 | from a collection with unique ids in which only the newest chat may lack messages, start-up yields a tidy state |
| `Home.StartUp` | app/index.tsx:13-20 | the effect over the two stores has exactly the outcome of `StartUpStep`, changing nothing in the preferences but the active id |

## Left out

- Persistence is not modelled. This covers the `persist` middleware, JSON serialisation, AsyncStorage and the secure store (hooks/useChatStore.ts:73-76, hooks/useGlobalStore.ts:37-44). Rehydration and tolerance of malformed payloads are library behaviour and asynchronous I/O.
- `generateId` is a call into the `ai` package. It becomes a parameter, `newId`. `ChatStore.Store.CreateChat` and `Menu.HandleCreateChat` require that no chat already uses it. The delete and start-up actions create a chat only when the collection is empty, so they need no such requirement.
- `router.replace` becomes `Navigation.Router.Replace`, which appends its target to a history. Navigation itself is not modelled.
- Store subscriptions, re-rendering and the effect's dependency list belong to the framework and are not modelled.
- The chat screen (streaming through the gateway, setting a title on the first message and a description on the first reply) is not part of this model. Nor are API-key verification, the model picker, the layout, or the swipe and spinner animations (app/menu/index.tsx:78-215).
- `Menu.Lower`: `toLowerCase` is modelled on ASCII letters only. Unicode case mapping is not modelled.
- Messages (`UIMessage` of the `ai` package) are opaque to the core. They are modelled as an id, a role and a list of parts, which the model never inspects.
- The menu hands its handlers chats taken from the displayed list. The model's handlers accept any chat. Only the `Tidy` lemmas for select and delete require the chat to be listed.
