/**
 The global preferences store (hooks/useGlobalStore.ts): the active chat id,
 the selected model and the gateway API key. Each setter replaces exactly one
 field.
 */
module GlobalStore {
  import opened Options

  /** `selectedModel`: a display label (`label` in the source) and a model id, both possibly unset. */
  datatype Model = Model(displayLabel: Option<string>, value: Option<string>)

  /** The whole record, as a value. */
  datatype Prefs = Prefs(chatId: string, selectedModel: Model, apiKey: string)

  /** The state the store starts from: nothing chosen, no key configured. */
  const Initial: Prefs := Prefs("", Model(None, None), "")

  /** `set({ chatId })`: only `chatId` changes. */
  function WithChatId(p: Prefs, chatId: string): (r: Prefs)
    ensures r.chatId == chatId && r.selectedModel == p.selectedModel && r.apiKey == p.apiKey
  {
    p.(chatId := chatId)
  }

  /** `set({ selectedModel })`: only `selectedModel` changes. */
  function WithSelectedModel(p: Prefs, m: Model): (r: Prefs)
    ensures r.chatId == p.chatId && r.selectedModel == m && r.apiKey == p.apiKey
  {
    p.(selectedModel := m)
  }

  /** `set({ apiKey })`: only `apiKey` changes. */
  function WithApiKey(p: Prefs, apiKey: string): (r: Prefs)
    ensures r.chatId == p.chatId && r.selectedModel == p.selectedModel && r.apiKey == apiKey
  {
    p.(apiKey := apiKey)
  }

  /** A later call of the same setter overrides an earlier one; in particular,
      repeating a call with the same value changes nothing. */
  lemma LastWriteWins(p: Prefs, a: string, b: string, m1: Model, m2: Model)
    ensures WithChatId(WithChatId(p, a), b) == WithChatId(p, b)
    ensures WithSelectedModel(WithSelectedModel(p, m1), m2) == WithSelectedModel(p, m2)
    ensures WithApiKey(WithApiKey(p, a), b) == WithApiKey(p, b)
  {
  }

  /** Setters of different fields commute. */
  lemma SettersCommute(p: Prefs, chatId: string, m: Model, apiKey: string)
    ensures WithChatId(WithSelectedModel(p, m), chatId) == WithSelectedModel(WithChatId(p, chatId), m)
    ensures WithChatId(WithApiKey(p, apiKey), chatId) == WithApiKey(WithChatId(p, chatId), apiKey)
    ensures WithSelectedModel(WithApiKey(p, apiKey), m) == WithApiKey(WithSelectedModel(p, m), apiKey)
  {
  }

  /** The store object; its actions overwrite one field in place. */
  class Store {
    var chatId: string
    var selectedModel: Model
    var apiKey: string

    function Snapshot(): Prefs
      reads this
    {
      Prefs(chatId, selectedModel, apiKey)
    }

    constructor ()
      ensures Snapshot() == Initial
    {
      chatId := "";
      selectedModel := Model(None, None);
      apiKey := "";
    }

    method SetChatId(id: string)
      modifies this
      ensures Snapshot() == WithChatId(old(Snapshot()), id)
    {
      chatId := id;
    }

    method SetSelectedModel(m: Model)
      modifies this
      ensures Snapshot() == WithSelectedModel(old(Snapshot()), m)
    {
      selectedModel := m;
    }

    method SetApiKey(key: string)
      modifies this
      ensures Snapshot() == WithApiKey(old(Snapshot()), key)
    {
      apiKey := key;
    }
  }
}
