/** The channel registry of bot.py: a dictionary from channel id to display
    name, kept in memory by `ChannelStorage` and rewritten to a file after
    every change. The file's byte format (pickle) is abstracted to a value. */
module Registry {

  /** Keys of a sequence are pairwise distinct. */
  predicate NoDuplicates(s: seq<string>) {
    forall i, j :: 0 <= i < j < |s| ==> s[i] != s[j]
  }

  /** A Python dict: its key-to-value map together with the insertion order of
      its keys, which `dict.items()` follows. */
  datatype Dict = Dict(channels: map<string, string>, order: seq<string>)

  predicate WellFormed(d: Dict) {
    && NoDuplicates(d.order)
    && (forall k :: k in d.order ==> k in d.channels)
    && (forall k :: k in d.channels ==> k in d.order)
  }

  type Registry = d: Dict | WellFormed(d) witness Dict(map[], [])

  const Empty: Registry := Dict(map[], [])

  /** s with every occurrence of x taken out, the others in their order. */
  function Without(s: seq<string>, x: string): (r: seq<string>)
    ensures forall k :: k in r <==> k in s && k != x
    ensures NoDuplicates(s) ==> NoDuplicates(r)
    ensures x !in s ==> r == s
  {
    if s == [] then []
    else if s[0] == x then Without(s[1..], x)
    else
      var rest := Without(s[1..], x);
      assert NoDuplicates(s) ==> NoDuplicates(s[1..]) && s[0] !in s[1..];
      assert forall j :: 1 <= j < |rest| + 1 ==> ([s[0]] + rest)[j] == rest[j - 1];
      [s[0]] + rest
  }

  /** `del` on a key present once takes out exactly that position: the keys
      before it and after it stay, in their order. */
  lemma {:induction false} WithoutIsSplice(s: seq<string>, x: string, i: int)
    requires NoDuplicates(s) && 0 <= i < |s| && s[i] == x
    ensures Without(s, x) == s[..i] + s[i + 1..]
  {
    assert NoDuplicates(s[1..]);
    if i == 0 {
      assert x !in s[1..];
    } else {
      assert s[0] != x;
      WithoutIsSplice(s[1..], x, i - 1);
      assert s[..i] == [s[0]] + s[1..][..i - 1];
      assert s[i + 1..] == s[1..][i..];
    }
  }

  /** `d[id] = name`: a new key goes to the end, an existing key keeps its place. */
  function Put(d: Registry, id: string, name: string): Registry {
    var order := if id in d.channels then d.order else d.order + [id];
    assert WellFormed(Dict(d.channels[id := name], order));
    Dict(d.channels[id := name], order)
  }

  /** `del d[id]` (only ever applied to a key that is present). */
  function Delete(d: Registry, id: string): Registry {
    Dict(d.channels - {id}, Without(d.order, id))
  }

  /** What a store holding the registry looks like on disk. */
  datatype Disk =
    | Missing               // no file at the storage path
    | Corrupt               // a file that does not decode
    | Stored(snapshot: Registry)

  /** The persisted file, which outlives any one ChannelStorage. */
  class StorageFile {
    var content: Disk

    constructor (content: Disk)
      ensures this.content == content
    {
      this.content := content;
    }
  }

  class ChannelStorage {
    var channels: map<string, string>
    var order: seq<string>
    const file: StorageFile

    ghost predicate Valid()
      reads this
    {
      WellFormed(Dict(channels, order))
    }

    /** `get_channels`: the dictionary itself, as callers see it. */
    function GetChannels(): Registry
      reads this
      requires Valid()
    {
      Dict(channels, order)
    }

    /** `__init__`: start empty, then `load_data`. */
    constructor (file: StorageFile)
      ensures Valid() && this.file == file && file.content == old(file.content)
      ensures file.content.Stored? ==> GetChannels() == file.content.snapshot
      ensures !file.content.Stored? ==> GetChannels() == Empty
    {
      this.file := file;
      channels, order := map[], [];
      new;
      LoadData();
    }

    /** `load_data`: a missing file leaves the dictionary as it is, a file
        that fails to decode resets it to empty, a good file replaces it. */
    method LoadData()
      requires Valid()
      modifies this
      ensures Valid() && file.content == old(file.content)
      ensures file.content.Missing? ==> GetChannels() == old(GetChannels())
      ensures file.content.Corrupt? ==> GetChannels() == Empty
      ensures file.content.Stored? ==> GetChannels() == file.content.snapshot
    {
      match file.content {
        case Missing =>
        case Corrupt =>
          channels, order := map[], [];
        case Stored(snapshot) =>
          channels, order := snapshot.channels, snapshot.order;
      }
    }

    /** `save_data`: the whole dictionary overwrites the file. */
    method SaveData()
      requires Valid()
      modifies file
      ensures file.content == Stored(GetChannels())
    {
      file.content := Stored(GetChannels());
    }

    /** `add_channel`: insert or overwrite, then save. */
    method AddChannel(id: string, name: string)
      requires Valid()
      modifies this, file
      ensures Valid()
      ensures channels == old(channels)[id := name]
      ensures GetChannels() == Put(old(GetChannels()), id, name)
      ensures file.content == Stored(GetChannels())
    {
      var d := Put(GetChannels(), id, name);
      channels, order := d.channels, d.order;
      SaveData();
    }

    /** `remove_channel`: delete and save when the key is present; otherwise
        touch neither the dictionary nor the file. */
    method RemoveChannel(id: string) returns (removed: bool)
      requires Valid()
      modifies this, file
      ensures Valid()
      ensures removed <==> id in old(channels)
      ensures removed ==> channels == old(channels) - {id}
                          && GetChannels() == Delete(old(GetChannels()), id)
                          && file.content == Stored(GetChannels())
      ensures !removed ==> channels == old(channels) && order == old(order)
                           && file.content == old(file.content)
    {
      if id in channels {
        var d := Delete(GetChannels(), id);
        channels, order := d.channels, d.order;
        SaveData();
        return true;
      }
      return false;
    }
  }

  /** Saving and then loading gives back the same dictionary, order included. */
  lemma SaveLoadRoundTrip(s: ChannelStorage, t: ChannelStorage)
    requires s.Valid() && t.Valid()
    requires s.file.content == Stored(s.GetChannels())
    requires t.file.content.Stored? ==> t.GetChannels() == t.file.content.snapshot
    requires t.file == s.file
    ensures t.channels == s.channels && t.order == s.order
  {
  }

  /** Save, then start a new store on the same file (a restart): the new
      store holds the same dictionary, order included. */
  method SaveThenReload(s: ChannelStorage) returns (t: ChannelStorage)
    requires s.Valid()
    modifies s.file
    ensures t.Valid() && t.file == s.file
    ensures t.GetChannels() == s.GetChannels()
  {
    s.SaveData();
    t := new ChannelStorage(s.file);
  }

  /** Last write wins: a second add of the same key replaces the first one
      and leaves the key where the first add put it. */
  lemma LastWriteWins(d: Registry, id: string, first: string, second: string)
    ensures Put(Put(d, id, first), id, second) == Put(d, id, second)
  {
  }

  /** Removing a key that was just added as new restores the registry exactly. */
  lemma DeleteUndoesPut(d: Registry, id: string, name: string)
    requires id !in d.channels
    ensures Delete(Put(d, id, name), id) == d
  {
    WithoutAppended(d.order, id);
  }

  lemma {:induction false} WithoutAppended(s: seq<string>, x: string)
    requires x !in s
    ensures Without(s + [x], x) == s
  {
    if s == [] {
      assert s + [x] == [x];
    } else {
      assert (s + [x])[1..] == s[1..] + [x];
      WithoutAppended(s[1..], x);
    }
  }

  /** A dict has as many keys in its order as entries in its map. */
  lemma OrderLength(d: Registry)
    ensures |d.order| == |d.channels|
  {
    DistinctCard(d.order);
    assert (set k | k in d.order) == d.channels.Keys;
  }

  lemma {:induction false} DistinctCard(s: seq<string>)
    requires NoDuplicates(s)
    ensures |set k | k in s| == |s|
  {
    if s != [] {
      assert NoDuplicates(s[1..]);
      DistinctCard(s[1..]);
      assert (set k | k in s) == {s[0]} + (set k | k in s[1..]);
      assert s[0] !in (set k | k in s[1..]);
    }
  }
}
