/** The per-user conversation of bot.py: the `awaiting_channel` flag in
    `user_data`, the classifier for the text sent after "add channel", and the
    two handlers that drive the registry, `handle_message` and
    `button_handler`. */
module Conversation {
  import opened Text
  import opened Registry
  import opened Menu

  const AddPromptText: string :=
    "Envoyez le @nom ou l'ID numérique de la chaîne\n(Le bot doit être admin de la chaîne)"
  const InvalidFormatText: string := "❌ Format invalide. Utilisez @nom ou ID numérique"
  const UseStartText: string := "Utilisez /start pour le menu"
  const RemovedText: string := "✅ Chaîne supprimée"
  const NotFoundText: string := "❌ Chaîne introuvable"
  const NumericLabelPrefix: string := "Chaîne "

  /** A user's `user_data`, reduced to the one key the bot uses: whether
      `'awaiting_channel'` is present. */
  class Session {
    var awaitingChannel: bool

    /** A new user has no key in `user_data`. */
    constructor ()
      ensures !awaitingChannel
    {
      awaitingChannel := false;
    }
  }

  /** How the stripped text sent after "add channel" is read. */
  datatype ChannelInput =
    | Handle(id: string, name: string)    // "@name": id without the sigil, name with it
    | Numeric(id: string, name: string)   // a digit string: id as given, a generated name
    | Malformed

  /** The tests of `handle_message`, in their order: a leading `@` first,
      then `isdigit()`. */
  function Classify(t: string): (c: ChannelInput)
    ensures c.Handle? <==> StartsWith(t, "@")
    ensures c.Handle? ==> c.name == t && "@" + c.id == t
    ensures c.Numeric? <==> IsDigits(t)
    ensures c.Numeric? ==> c.id == t && c.name == NumericLabelPrefix + t
  {
    if StartsWith(t, "@") then
      assert t[0] == t[..1][0] == '@';
      Handle(t[1..], t)
    else if IsDigits(t) then Numeric(t, NumericLabelPrefix + t)
    else Malformed
  }

  /** The classifier's verdicts on a handle, a number, a plain word and the
      empty string. */
  lemma ClassifyExamples()
    ensures Classify("@abc") == Handle("abc", "@abc")
    ensures Classify("123") == Numeric("123", "Chaîne 123")
    ensures Classify("abc") == Malformed
    ensures Classify("") == Malformed
  {
    assert !IsDigits("abc") by {
      assert !IsDigit("abc"[0]);
    }
  }

  /** A handle made of digits and the bare digits land on the same key with
      different names, so the second add overwrites the first. */
  lemma HandleAndNumberShareKey(d: string)
    requires IsDigits(d)
    ensures Classify("@" + d).id == Classify(d).id == d
    ensures Classify("@" + d).name != Classify(d).name
  {
    var h := "@" + d;
    assert h[..1] == "@";
    assert h[1..] == d;
    assert !StartsWith(d, "@") by {
      assert IsDigit(d[0]);
    }
    var handleName, numericName := Classify(h).name, Classify(d).name;
    assert handleName[0] == '@' && numericName[0] == 'C';
  }

  /** The reply sent after an accepted input. */
  function AddedReply(c: ChannelInput): string
    requires !c.Malformed?
  {
    if c.Handle? then "✅ " + c.name + " ajoutée!" else "✅ ID " + c.id + " ajouté!"
  }

  /** `handle_message`. With the flag set, the stripped text is classified,
      an accepted input is added to the registry, and the flag is cleared
      whatever the verdict; without it, nothing but a hint happens. */
  method HandleMessage(storage: ChannelStorage, session: Session, text: string) returns (reply: string)
    requires storage.Valid()
    modifies storage, storage.file, session
    ensures storage.Valid() && !session.awaitingChannel
    ensures !old(session.awaitingChannel) ==>
      && reply == UseStartText
      && storage.channels == old(storage.channels) && storage.order == old(storage.order)
      && storage.file.content == old(storage.file.content)
    ensures old(session.awaitingChannel) && Classify(Strip(text)).Malformed? ==>
      && reply == InvalidFormatText
      && storage.channels == old(storage.channels) && storage.order == old(storage.order)
      && storage.file.content == old(storage.file.content)
    ensures old(session.awaitingChannel) && !Classify(Strip(text)).Malformed? ==>
      var c := Classify(Strip(text));
      && reply == AddedReply(c)
      && storage.channels == old(storage.channels)[c.id := c.name]
      && storage.GetChannels() == Put(old(storage.GetChannels()), c.id, c.name)
      && storage.file.content == Stored(storage.GetChannels())
  {
    if session.awaitingChannel {
      var input := Strip(text);
      var c := Classify(input);
      match c {
        case Handle(id, name) =>
          storage.AddChannel(id, name);
          reply := AddedReply(c);
        case Numeric(id, name) =>
          storage.AddChannel(id, name);
          reply := AddedReply(c);
        case Malformed =>
          reply := InvalidFormatText;
      }
      session.awaitingChannel := false;
    } else {
      reply := UseStartText;
    }
  }

  /** `button_handler`: routes the token and performs the action. Only the
      add button raises the flag; only a delete token touches the registry. */
  method ButtonHandler(storage: ChannelStorage, session: Session, data: string) returns (screen: Option<Screen>)
    requires storage.Valid()
    modifies storage, storage.file, session
    ensures storage.Valid()
    ensures session.awaitingChannel == (old(session.awaitingChannel) || data == AddToken)
    ensures !Route(data).RemoveById? ==>
      && storage.channels == old(storage.channels) && storage.order == old(storage.order)
      && storage.file.content == old(storage.file.content)
    ensures Route(data).RemoveById? ==>
      var id := Route(data).id;
      && (id in old(storage.channels) ==>
            && storage.GetChannels() == Delete(old(storage.GetChannels()), id)
            && storage.file.content == Stored(storage.GetChannels())
            && screen == Some(Screen(RemovedText, [])))
      && (id !in old(storage.channels) ==>
            && storage.channels == old(storage.channels) && storage.order == old(storage.order)
            && storage.file.content == old(storage.file.content)
            && screen == Some(Screen(NotFoundText, [])))
    ensures Route(data) == PromptAdd ==> screen == Some(Screen(AddPromptText, []))
    ensures Route(data) == OpenRemoveMenu ==> screen == Some(RemoveMenu(storage.GetChannels()))
    ensures Route(data) == OpenList ==> screen == Some(ChannelList(storage.GetChannels()))
    ensures Route(data) == BackToMenu ==> screen == Some(MainMenu)
    ensures Route(data) == NoAction ==> screen == None
  {
    match Route(data) {
      case PromptAdd =>
        screen := Some(Screen(AddPromptText, []));
        session.awaitingChannel := true;
      case OpenRemoveMenu =>
        var s := ShowChannelsToRemove(storage);
        screen := Some(s);
      case OpenList =>
        var s := ShowChannelsList(storage);
        screen := Some(s);
      case RemoveById(id) =>
        var removed := storage.RemoveChannel(id);
        screen := Some(Screen(if removed then RemovedText else NotFoundText, []));
      case BackToMenu =>
        screen := Some(MainMenu);
      case NoAction =>
        screen := None;
    }
  }
}
