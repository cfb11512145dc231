/** The channel-post signer of bot.py (`edit_messages`): a post in a
    registered channel gets the line "@" + display name appended, once. */
module Signer {
  import opened Text
  import opened Registry

  /** A new post in a channel: the channel's numeric chat id and the post's
      text, absent for posts without text (photos and the like). */
  datatype ChannelPost = ChannelPost(chatId: int, text: Option<string>)

  /** The signature for a display name, `f"\n\n@{channel_name}"`. */
  function Signature(name: string): string {
    "\n\n@" + name
  }

  /** The text the post should be edited to, or None to leave it alone: the
      registry is looked up under `str(chat.id)`, and a post that is empty,
      has no text, or already ends with the signature is not edited. */
  function SignatureEdit(channels: map<string, string>, chatId: int, text: Option<string>): (edit: Option<string>)
    ensures edit.Some? <==>
      && IntToDecimal(chatId) in channels
      && text.Some? && text.value != ""
      && !EndsWith(text.value, Signature(channels[IntToDecimal(chatId)]))
    ensures edit.Some? ==>
      var sig := Signature(channels[IntToDecimal(chatId)]);
      && EndsWith(edit.value, sig)
      && |edit.value| == |text.value| + |sig|
      && edit.value[..|text.value|] == text.value
  {
    var key := IntToDecimal(chatId);
    if key in channels then
      var sig := Signature(channels[key]);
      if text.Some? && text.value != "" && !EndsWith(text.value, sig) then
        var signed := text.value + sig;
        assert signed[|signed| - |sig|..] == sig;
        Some(signed)
      else None
    else None
  }

  /** The post's text once the edit (if any) has gone through. */
  function Signed(channels: map<string, string>, chatId: int, text: Option<string>): Option<string> {
    var edit := SignatureEdit(channels, chatId, text);
    if edit.Some? then edit else text
  }

  /** A post in a registered channel with some text always ends up ending
      with the signature. */
  lemma SignedEndsWithSignature(channels: map<string, string>, chatId: int, text: string)
    requires IntToDecimal(chatId) in channels && text != ""
    ensures var after := Signed(channels, chatId, Some(text));
      after.Some? && EndsWith(after.value, Signature(channels[IntToDecimal(chatId)]))
  {
  }

  /** Signing a signed post is a no-op, so signing twice is signing once. */
  lemma SignIdempotent(channels: map<string, string>, chatId: int, text: Option<string>)
    ensures SignatureEdit(channels, chatId, Signed(channels, chatId, text)) == None
    ensures Signed(channels, chatId, Signed(channels, chatId, text)) == Signed(channels, chatId, text)
  {
  }


  /** Channel chat ids are negative, and `str` of a negative id starts with a
      minus sign: such a post never finds an entry made from a digit string
      (the only keys that can match it come from a handle such as "@-100…"). */
  lemma NegativeIdNotDigits(chatId: int)
    requires chatId < 0
    ensures !IsDigits(IntToDecimal(chatId))
  {
    assert !IsDigit(IntToDecimal(chatId)[0]);
  }

  /** A digit string with a leading zero, such as "007", is never the key a
      post is looked up under. */
  lemma LeadingZeroNeverMatches(key: string, chatId: int)
    requires |key| >= 2 && key[0] == '0'
    ensures IntToDecimal(chatId) != key
  {
  }

  /** `edit_messages`. The edit is a call into the messaging platform that may
      fail; its failure is swallowed, so the post keeps its text and the
      registry is never written. `request` is the edit sent, `shown` the
      post's text afterwards. */
  method EditMessages(storage: ChannelStorage, post: Option<ChannelPost>, editSucceeds: bool)
    returns (request: Option<string>, shown: Option<string>)
    requires storage.Valid()
    ensures post.None? ==> request == None && shown == None
    ensures post.Some? ==>
      && request == SignatureEdit(storage.channels, post.value.chatId, post.value.text)
      && shown == (if request.Some? && editSucceeds then request else post.value.text)
  {
    if post.None? {
      return None, None;
    }
    var message := post.value;
    var channelId := IntToDecimal(message.chatId);
    var channels := storage.GetChannels().channels;
    request, shown := None, message.text;
    if channelId in channels {
      var signature := Signature(channels[channelId]);
      if message.text.Some? && message.text.value != "" && !EndsWith(message.text.value, signature) {
        request := Some(message.text.value + signature);
        if editSucceeds {
          shown := request;
        }
      }
    }
  }
}
