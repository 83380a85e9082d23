/** The files that hold group keys, and how a relay peer gets its key from them (src/group.rs, src/net.rs). */
module GroupKeys {
  import opened Basics
  import opened Text
  import opened GroupUris
  import opened Peers

  /** What `groups/<id>.json` says. */
  datatype GroupFile = GroupFile(key: string, host: string, port: u16)

  type KeyFiles = map<string, Bytes>

  datatype KeyError = NotWritten | Missing | BadFile | BadKey | WrongLength

  /** Whether a key file is written; if not, it may be left with anything in it. */
  datatype Write = Whole | Fails(torn: Option<Bytes>)

  function FileOf(id: Id): string {
    Hex(id) + ".json"
  }

  function Saved(lib: Lib, json: Codec<GroupFile>, files: KeyFiles, t: PeerTarget, id: Id, key: Secret, write: Write)
    : KeyFiles
  {
    match write
    case Whole => files[FileOf(id) := json.encode(GroupFile(lib.encode(key), t.host, t.port))]
    case Fails(Some(torn)) => files[FileOf(id) := torn]
    case Fails(None) => files
  }

  function LoadKey(lib: Lib, json: Codec<GroupFile>, files: KeyFiles, id: Id): Result<Secret, KeyError> {
    if FileOf(id) !in files then Err(Missing) else
    match json.decode(files[FileOf(id)])
    case None => Err(BadFile)
    case Some(record) =>
      match lib.decode(record.key)
      case None => Err(KeyError.BadKey)
      case Some(bytes) => if |bytes| != 32 then Err(WrongLength) else Ok(bytes)
  }

  /** A key that came with the URI is saved; one that did not is looked up. */
  function Resolved(lib: Lib, json: Codec<GroupFile>, files: KeyFiles, t: PeerTarget, write: Write)
    : (KeyFiles, Result<PeerTarget, KeyError>)
  {
    if t.relay.None? then
      (files, Ok(t))
    else if t.relay.value.key.Some? then
      (Saved(lib, json, files, t, t.relay.value.groupId, t.relay.value.key.value, write),
       if write.Whole? then Ok(t) else Err(NotWritten))
    else
      (files,
       match LoadKey(lib, json, files, t.relay.value.groupId)
       case Err(e) => Err(e)
       case Ok(key) => Ok(t.(relay := Some(RelayPeer(t.relay.value.groupId, Some(key))))))
  }

  class KeyDir {
    const lib: Lib
    const json: Codec<GroupFile>
    var files: KeyFiles

    constructor (lib: Lib, json: Codec<GroupFile>, files: KeyFiles)
      ensures this.lib == lib && this.json == json && this.files == files
    {
      this.lib, this.json, this.files := lib, json, files;
    }

    method ResolveRelay(t: PeerTarget, write: Write) returns (r: Result<PeerTarget, KeyError>)
      modifies this
      ensures (files, r) == Resolved(lib, json, old(files), t, write)
    {
      if t.relay.None? {
        return Ok(t);
      }
      var relay := t.relay.value;
      if relay.key.Some? {
        var file := Hex(relay.groupId) + ".json";
        match write {
          case Whole =>
            files := files[file := json.encode(GroupFile(lib.encode(relay.key.value), t.host, t.port))];
            return Ok(t);
          case Fails(torn) =>
            if torn.Some? {
              files := files[file := torn.value];
            }
            return Err(NotWritten);
        }
      }
      var key := LoadKey(lib, json, files, relay.groupId);
      if key.Err? {
        return Err(key.error);
      }
      relay := relay.(key := Some(key.value));
      return Ok(t.(relay := Some(relay)));
    }
  }

  lemma FilesDiffer(a: Id, b: Id)
    requires a != b
    ensures FileOf(a) != FileOf(b)
  {
    HexRoundTrip(a);
    HexRoundTrip(b);
    hide Hex, FromHex;
    assert FileOf(a)[..32] == Hex(a) && FileOf(b)[..32] == Hex(b);
  }

  lemma SavedIsLoaded(lib: Lib, json: Codec<GroupFile>, files: KeyFiles, t: PeerTarget, id: Id, key: Secret)
    requires LibLaw(lib) && CodecLaw(json)
    ensures var files' := Saved(lib, json, files, t, id, key, Whole);
            && LoadKey(lib, json, files', id) == Ok(key)
            && Hex(id) + ".json" in files'
            && var record := json.decode(files'[Hex(id) + ".json"]);
            && record.Some? && record.value.host == t.host && record.value.port == t.port
  {
    var record := GroupFile(lib.encode(key), t.host, t.port);
    assert json.decode(json.encode(record)) == Some(record) && lib.decode(lib.encode(key)) == Some(key);
    hide Hex;
  }

  /** Only an import of that group touches its key. */
  predicate Imports(t: PeerTarget, id: Id) {
    t.relay.Some? && t.relay.value.key.Some? && t.relay.value.groupId == id
  }

  lemma OthersKeepKey(lib: Lib, json: Codec<GroupFile>, files: KeyFiles, t: PeerTarget, write: Write, id: Id)
    requires !Imports(t, id)
    ensures LoadKey(lib, json, Resolved(lib, json, files, t, write).0, id) == LoadKey(lib, json, files, id)
  {
    if t.relay.Some? && t.relay.value.key.Some? {
      FilesDiffer(t.relay.value.groupId, id);
    }
    hide Hex;
  }

  datatype Use = Use(target: PeerTarget, write: Write)

  function After(lib: Lib, json: Codec<GroupFile>, files: KeyFiles, uses: seq<Use>): KeyFiles
    decreases |uses|
  {
    if uses == [] then files else
    After(lib, json, Resolved(lib, json, files, uses[0].target, uses[0].write).0, uses[1..])
  }

  lemma {:induction false} KeyStays(lib: Lib, json: Codec<GroupFile>, files: KeyFiles, uses: seq<Use>, id: Id)
    requires forall use :: use in uses ==> !Imports(use.target, id)
    ensures LoadKey(lib, json, After(lib, json, files, uses), id) == LoadKey(lib, json, files, id)
    decreases |uses|
  {
    hide LoadKey, Resolved;
    if uses != [] {
      assert uses[0] in uses;
      OthersKeepKey(lib, json, files, uses[0].target, uses[0].write, id);
      KeyStays(lib, json, Resolved(lib, json, files, uses[0].target, uses[0].write).0, uses[1..], id);
    }
  }

  /**
   * An imported URI is stored without its key, and the stored form gives back the very same peer, key
   * included, whatever other groups are imported or looked up in between, with whatever failures.
   */
  lemma StoredPeerGetsItsKey(
    lib: Lib, json: Codec<GroupFile>, files: KeyFiles, g: GroupUri, uses: seq<Use>, write: Write)
    requires LibLaw(lib) && CodecLaw(json) && g.key.Some? && GoodHost(lib, g.host)
    requires forall use :: use in uses ==> !Imports(use.target, g.groupId)
    ensures ToUri(lib, g).Ok? && ParsePeer(lib, ToUri(lib, g).value).Ok?
    ensures var t := ParsePeer(lib, ToUri(lib, g).value).value;
            var (files', r) := Resolved(lib, json, files, t, Whole);
            var stored := ParsePeer(lib, t.uri);
            && r == Ok(t) && t.relay.Some? && t.relay.value.key == g.key
            && stored.Ok? && stored.value.relay.Some? && stored.value.relay.value.key.None?
            && Resolved(lib, json, After(lib, json, files', uses), stored.value, write).1 == Ok(t)
  {
    hide ParsePeer, ToUri, RedactedUri, GoodHost, LoadKey, Saved;
    ImportedKeyIsKept(lib, g);
    var t := ParsePeer(lib, ToUri(lib, g).value).value;
    assert lib.isIpv6(t.host) || (':' !in t.host && !("[" <= t.host)) by {
      GoodHostIsReadable(lib, g.host);
    }
    CanonicalRelayIsFixed(lib, ToUri(lib, g).value, t);
    SavedIsLoaded(lib, json, files, t, g.groupId, g.key.value);
    KeyStays(lib, json, Resolved(lib, json, files, t, Whole).0, uses, g.groupId);
  }

  lemma GoodHostIsReadable(lib: Lib, host: string)
    requires GoodHost(lib, host)
    ensures lib.isIpv6(host) || (':' !in host && !("[" <= host))
  {
  }

  /** Without the file, or with one that does not hold a key, there is no peer; the key is never made up. */
  lemma KeyIsLookedUpIff(lib: Lib, json: Codec<GroupFile>, files: KeyFiles, t: PeerTarget, write: Write, key: Secret)
    requires t.relay.Some? && t.relay.value.key.None?
    ensures var found := t.(relay := Some(t.relay.value.(key := Some(key))));
            Resolved(lib, json, files, t, write) == (files, Ok(found)) <==>
              var file := Hex(t.relay.value.groupId) + ".json";
              && file in files && json.decode(files[file]).Some?
              && lib.decode(json.decode(files[file]).value.key) == Some(key)
  {
    hide Hex;
  }
}
