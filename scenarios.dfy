/** End-to-end runs of the handlers, as a user would drive the bot, and the
    facts that only show up when the parts are put together. */
module Scenarios {
  import opened Text
  import opened Registry
  import opened Menu
  import opened Conversation
  import opened Signer

  /** Press "add channel", send a valid handle or id, ask for the list: the
      list holds exactly the one line for that channel ("@news" gives
      "• @news (ID: news)\n"). */
  method AddThenList(text: string) returns (listed: Screen)
    requires !Classify(Strip(text)).Malformed?
    ensures var c := Classify(Strip(text));
      listed == Screen(ListHeader + ListLine(c.id, c.name), [[BackButton]])
  {
    var file := new StorageFile(Missing);
    var storage := new ChannelStorage(file);
    var session := new Session();
    MainMenuRoutes();
    var prompt := ButtonHandler(storage, session, AddToken);
    var c := Classify(Strip(text));
    var reply := HandleMessage(storage, session, text);
    assert storage.GetChannels() == Put(Empty, c.id, c.name);
    assert storage.GetChannels() == Dict(map[c.id := c.name], [c.id]);
    var shown := ButtonHandler(storage, session, ListToken);
    listed := shown.value;
    assert [c.id][..0] == [];
    assert ListLines([c.id], map[c.id := c.name]) == ListLine(c.id, c.name);
  }

  /** With the flag down a text message is answered with the hint and the
      registry stays empty, even when the text is a valid handle. */
  method IdleMessageIgnored() returns (reply: string, listed: Screen)
    ensures reply == UseStartText
    ensures listed == Screen(NoChannelsText, [])
  {
    var file := new StorageFile(Missing);
    var storage := new ChannelStorage(file);
    var session := new Session();
    MainMenuRoutes();
    reply := HandleMessage(storage, session, "@news");
    var shown := ButtonHandler(storage, session, ListToken);
    listed := shown.value;
  }

  /** Removing an id that is not registered reports "not found" and writes
      nothing. */
  method RemoveUnknown() returns (shown: Option<Screen>, persisted: Disk)
    ensures shown == Some(Screen(NotFoundText, []))
    ensures persisted == Missing
  {
    var file := new StorageFile(Missing);
    var storage := new ChannelStorage(file);
    var session := new Session();
    shown := ButtonHandler(storage, session, RemoveToken("999"));
    RouteRemoveToken("999");
    persisted := file.content;
  }

  /** What one run of the bot saves, the next run on the same file loads. */
  method RestartKeepsChannels() returns (before: Registry, after: Registry)
    ensures before == after
    ensures before.channels == map["news" := "@news", "123" := "Chaîne 123"]
    ensures before.order == ["news", "123"]
  {
    var file := new StorageFile(Corrupt);
    var first := new ChannelStorage(file);
    assert first.channels == map[];
    first.AddChannel("news", "@news");
    assert first.channels == map["news" := "@news"];
    assert NumericLabelPrefix + "123" == "Chaîne 123";
    first.AddChannel("123", NumericLabelPrefix + "123");
    assert first.channels == map["news" := "@news", "123" := "Chaîne 123"];
    before := first.GetChannels();
    var second := new ChannelStorage(file);
    after := second.GetChannels();
  }

  /** Adding the same channel twice leaves one entry. */
  method AddTwice(id: string, name: string) returns (registry: Registry)
    ensures registry == Dict(map[id := name], [id])
  {
    var file := new StorageFile(Missing);
    var storage := new ChannelStorage(file);
    storage.AddChannel(id, name);
    storage.AddChannel(id, name);
    registry := storage.GetChannels();
  }

  /** The text "@channel" is accepted as the handle of the channel "channel". */
  lemma ChannelHandle()
    ensures Classify(Strip("@channel")) == Handle("channel", "@channel")
  {
    var handle := "@channel";
    assert handle[..1] == "@" && handle[1..] == "channel";
    StripKeeps(handle);
  }

  /** The channel "@channel" can be added but not deleted from the menu: its
      delete button carries the token of the remove menu itself, which
      `button_handler` tests first, so pressing it shows the menu again. */
  method ChannelIdCollision() returns (shown: Option<Screen>, registry: Registry)
    ensures registry.channels == map["channel" := "@channel"]
    ensures shown == Some(RemoveMenu(registry))
  {
    var file := new StorageFile(Missing);
    var storage := new ChannelStorage(file);
    var session := new Session();
    MainMenuRoutes();
    var ignored := ButtonHandler(storage, session, AddToken);
    ChannelHandle();
    var reply := HandleMessage(storage, session, "@channel");
    var added := storage.GetChannels();
    assert added == Dict(map["channel" := "@channel"], ["channel"]);
    assert RemoveMenu(added).keyboard[0] == [RemoveButton("channel", "@channel")];
    RouteRemoveToken("channel");
    shown := ButtonHandler(storage, session, RemoveToken("channel"));
    registry := storage.GetChannels();
  }

  /** A handle entry keeps its `@` in the name, so its signature carries the
      sigil twice. */
  lemma HandleSignature(t: string)
    requires Classify(t).Handle?
    ensures Signature(Classify(t).name) == "\n\n@@" + Classify(t).id
  {
  }
}
