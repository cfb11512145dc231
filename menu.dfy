/** The inline-keyboard side of bot.py: the callback tokens carried by the
    buttons, the order in which `button_handler` tests them, and the two
    screens built from the registry by `show_channels_to_remove` and
    `show_channels_list`. */
module Menu {
  import opened Text
  import opened Registry

  /** A keyboard button: its caption and the callback token it sends back. */
  datatype Button = Button(caption: string, token: string)

  /** The text of a message and its inline keyboard (no rows: no keyboard). */
  datatype Screen = Screen(text: string, keyboard: seq<seq<Button>>)

  const AddToken: string := "add_channel"
  const RemoveMenuToken: string := "remove_channel"
  const ListToken: string := "list_channels"
  const BackToken: string := "back_to_menu"
  const RemovePrefix: string := "remove_"

  const MainMenuText: string := "Menu principal:"
  const NoChannelsText: string := "Aucune chaîne configurée"
  const RemovePromptText: string := "Sélectionnez une chaîne à supprimer:"
  const ListHeader: string := "📋 Chaînes configurées:\n\n"

  const BackButton: Button := Button("🔙 Retour", BackToken)

  /** The menu of `start` and `start_from_button`. */
  const MainMenu: Screen := Screen(MainMenuText, [
    [Button("➕ Ajouter une chaîne", AddToken), Button("🗑 Supprimer une chaîne", RemoveMenuToken)],
    [Button("📋 Liste des chaînes", ListToken)]
  ])

  /** The token of the delete button for a channel, `f'remove_{channel_id}'`. */
  function RemoveToken(id: string): (token: string)
    ensures StartsWith(token, RemovePrefix)
    ensures SliceFrom(token, |RemovePrefix|) == id
  {
    RemovePrefix + id
  }

  /** What a button press asks for. */
  datatype Action =
    | PromptAdd
    | OpenRemoveMenu
    | OpenList
    | RemoveById(id: string)
    | BackToMenu
    | NoAction

  /** The if/elif chain of `button_handler`: three exact tokens, then the
      `remove_` prefix whose id is `data[7:]`, then the back token. */
  function Route(data: string): Action {
    if data == AddToken then PromptAdd
    else if data == RemoveMenuToken then OpenRemoveMenu
    else if data == ListToken then OpenList
    else if StartsWith(data, RemovePrefix) then RemoveById(SliceFrom(data, 7))
    else if data == BackToken then BackToMenu
    else NoAction
  }

  /** A delete button deletes its own channel, except the channel whose id is
      "channel": its token is the remove-menu token, which is tested first. */
  lemma RouteRemoveToken(id: string)
    ensures Route(RemoveToken(id)) == if id == "channel" then OpenRemoveMenu else RemoveById(id)
  {
    var t := RemoveToken(id);
    assert t[0] == 'r' && AddToken[0] == 'a' && ListToken[0] == 'l';
    assert t[..7] == RemovePrefix;
    if t == RemoveMenuToken {
      assert id == t[7..] == "channel";
    }
    if id == "channel" {
      assert t == RemovePrefix + "channel" == RemoveMenuToken;
    }
  }

  /** The only tokens that delete anything are delete-button tokens, and every
      delete-button token but one deletes the channel it names. */
  lemma RouteRemoveExactly(data: string, id: string)
    ensures Route(data) == RemoveById(id) <==> data == RemoveToken(id) && id != "channel"
  {
    if Route(data) == RemoveById(id) {
      assert data == RemovePrefix + data[7..];
    }
    if data == RemoveToken(id) {
      RouteRemoveToken(id);
    }
  }

  /** Every button of the main menu leads to the screen its caption names. */
  lemma MainMenuRoutes()
    ensures Route(MainMenu.keyboard[0][0].token) == PromptAdd
    ensures Route(MainMenu.keyboard[0][1].token) == OpenRemoveMenu
    ensures Route(MainMenu.keyboard[1][0].token) == OpenList
    ensures Route(BackButton.token) == BackToMenu
  {
    assert !StartsWith(BackToken, RemovePrefix) by {
      assert BackToken[0] == 'b';
    }
  }

  /** The delete button of one channel. */
  function RemoveButton(id: string, name: string): Button {
    Button("🗑 " + name, RemoveToken(id))
  }

  /** One line of the channel list. */
  function ListLine(id: string, name: string): string {
    "• " + name + " (ID: " + id + ")\n"
  }

  /** The lines of the channel list for the keys ks, in that order. */
  function ListLines(ks: seq<string>, channels: map<string, string>): string
    requires forall k :: k in ks ==> k in channels
  {
    if ks == [] then ""
    else
      var last := ks[|ks| - 1];
      ListLines(ks[..|ks| - 1], channels) + ListLine(last, channels[last])
  }

  /** The screen of `show_channels_to_remove` for a registry. */
  function RemoveMenu(r: Registry): Screen {
    if r.channels == map[] then Screen(NoChannelsText, [])
    else
      var rows := seq(|r.order|, i requires 0 <= i < |r.order| =>
        assert r.order[i] in r.order;
        [RemoveButton(r.order[i], r.channels[r.order[i]])]);
      Screen(RemovePromptText, rows + [[BackButton]])
  }

  /** The screen of `show_channels_list` for a registry. */
  function ChannelList(r: Registry): Screen {
    if r.channels == map[] then Screen(NoChannelsText, [])
    else Screen(ListHeader + ListLines(r.order, r.channels), [[BackButton]])
  }

  /** `show_channels_to_remove`: builds the keyboard row by row over the
      dictionary's items, then adds the back button. */
  method ShowChannelsToRemove(storage: ChannelStorage) returns (screen: Screen)
    requires storage.Valid()
    ensures screen == RemoveMenu(storage.GetChannels())
  {
    var registry := storage.GetChannels();
    if registry.channels == map[] {
      return Screen(NoChannelsText, []);
    }
    var keyboard: seq<seq<Button>> := [];
    for i := 0 to |registry.order|
      invariant |keyboard| == i
      invariant forall j :: 0 <= j < i ==>
        keyboard[j] == [RemoveButton(registry.order[j], registry.channels[registry.order[j]])]
    {
      var id := registry.order[i];
      keyboard := keyboard + [[RemoveButton(id, registry.channels[id])]];
    }
    keyboard := keyboard + [[BackButton]];
    return Screen(RemovePromptText, keyboard);
  }

  /** `show_channels_list`: builds the message line by line over the
      dictionary's items. */
  method ShowChannelsList(storage: ChannelStorage) returns (screen: Screen)
    requires storage.Valid()
    ensures screen == ChannelList(storage.GetChannels())
  {
    var registry := storage.GetChannels();
    if registry.channels == map[] {
      return Screen(NoChannelsText, []);
    }
    var message := ListHeader;
    for i := 0 to |registry.order|
      invariant message == ListHeader + ListLines(registry.order[..i], registry.channels)
    {
      var id := registry.order[i];
      assert registry.order[..i + 1][..i] == registry.order[..i];
      message := message + ListLine(id, registry.channels[id]);
    }
    assert registry.order[..|registry.order|] == registry.order;
    return Screen(message, [[BackButton]]);
  }

  /** With no channel both screens are the bare empty-state message. */
  lemma EmptyScreens(r: Registry)
    requires r.order == []
    ensures RemoveMenu(r) == Screen(NoChannelsText, [])
    ensures ChannelList(r) == Screen(NoChannelsText, [])
  {
    assert r.channels == map[] by {
      assert forall k :: k !in r.channels;
    }
  }

  /** The remove menu of a non-empty registry has one row per channel, in
      insertion order, whose single button deletes that channel (except for
      the id "channel"), and then the back row. */
  lemma RemoveMenuRows(r: Registry)
    requires r.channels != map[]
    ensures var kb := RemoveMenu(r).keyboard;
      && |kb| == |r.channels| + 1
      && kb[|r.channels|] == [BackButton]
      && forall i :: 0 <= i < |r.order| ==>
           && r.order[i] in r.channels
           && |kb[i]| == 1
           && kb[i][0].caption == "🗑 " + r.channels[r.order[i]]
           && Route(kb[i][0].token) == if r.order[i] == "channel" then OpenRemoveMenu else RemoveById(r.order[i])
  {
    OrderLength(r);
    var kb: seq<seq<Button>> := RemoveMenu(r).keyboard;
    forall i | 0 <= i < |r.order|
      ensures Route(kb[i][0].token) == if r.order[i] == "channel" then OpenRemoveMenu else RemoveById(r.order[i])
    {
      assert r.order[i] in r.order;
      RouteRemoveToken(r.order[i]);
    }
  }

  /** A list line holds one line break, its last character, when neither the
      id nor the name holds one. */
  lemma ListLineCount(id: string, name: string)
    requires '\n' !in id && '\n' !in name
    ensures Count(ListLine(id, name), '\n') == 1
  {
    var body := "• " + name + " (ID: " + id + ")";
    assert ListLine(id, name) == body + "\n";
    CountAppend(body, "\n", '\n');
    CountAbsent(body, '\n');
    assert "\n"[..0] == "";
  }

  /** When no id or name holds a line break, the list has exactly one line per
      key. */
  lemma {:induction false} ListLinesCount(ks: seq<string>, channels: map<string, string>)
    requires forall k :: k in ks ==> k in channels
    requires forall k :: k in ks ==> '\n' !in k && '\n' !in channels[k]
    ensures Count(ListLines(ks, channels), '\n') == |ks|
  {
    if ks != [] {
      var init, last := ks[..|ks| - 1], ks[|ks| - 1];
      assert forall k :: k in init ==> k in ks;
      ListLinesCount(init, channels);
      CountAppend(ListLines(init, channels), ListLine(last, channels[last]), '\n');
      ListLineCount(last, channels[last]);
    }
  }

  /** The header of the list contributes exactly its two line breaks. */
  lemma ListScreenLineCount(ks: seq<string>, channels: map<string, string>)
    requires forall k :: k in ks ==> k in channels
    requires forall k :: k in ks ==> '\n' !in k && '\n' !in channels[k]
    ensures Count(ListHeader + ListLines(ks, channels), '\n') == |ks| + 2
  {
    ListLinesCount(ks, channels);
    CountAppend(ListHeader, ListLines(ks, channels), '\n');
    var title := "📋 Chaînes configurées:";
    assert ListHeader == title + "\n\n";
    CountAppend(title, "\n\n", '\n');
    CountAbsent(title, '\n');
    assert "\n\n"[..1] == "\n" && "\n"[..0] == "";
  }
}
