/**
 * The file clipboard (src/clipboard/file.rs): a content-addressed store updated by several writes,
 * renames and deletions, any of which may be the last one before a crash or an I/O error.
 */
module FileStore {
  import opened Basics
  import opened Clips
  import opened Disks

  /** What `current.json` says; no path stands for the empty one. */
  datatype Current = Current(hash: string, mime: string, size: nat, path: Option<Path>, name: string)

  const NO_CLIP: Current := Current("", "", 0, None, "")

  /** An item with the path under which it is offered to other programs. */
  datatype Stored = Stored(item: Item, path: Option<Path>)

  datatype StoreError = ExceedsLimit | Io

  function Meta(at: Place): Path {
    Path(at.clips, "current.json")
  }

  function Object(at: Place, h: string): Path {
    Path(ObjectsDir(at), h)
  }

  function Extension(mime: string): (ext: string)
    ensures ext in {".png", ".jpg", ".gif", ".webp", ".pdf", ".zip", ".txt", ".html", ".bin"}
  {
    if "image/png" <= mime then ".png"
    else if "image/jpeg" <= mime || "image/jpg" <= mime then ".jpg"
    else if "image/gif" <= mime then ".gif"
    else if "image/webp" <= mime then ".webp"
    else if "application/pdf" <= mime then ".pdf"
    else if "application/zip" <= mime then ".zip"
    else if "text/plain" <= mime then ".txt"
    else if "text/html" <= mime then ".html"
    else ".bin"
  }

  // What `set` does.

  function MimeOf(env: Env, item: Item): string {
    if item.mime == "" then env.mime(item.data) else item.mime
  }

  function Stable(at: Place, env: Env, item: Item): Path {
    Path(at.clips, "current" + Extension(MimeOf(env, item)))
  }

  predicate Stale(name: string, stable: string) {
    "current" <= name && name != stable && name != "current.json"
  }

  /** The deletion loop over what `read_dir` lists; a file it does not list, or cannot delete, stays. */
  function Cleanup(at: Place, listing: seq<string>, stable: string): seq<Op> {
    if listing == [] then [] else
    var last := listing[|listing| - 1];
    Cleanup(at, listing[..|listing| - 1], stable) + if Stale(last, stable) then [Remove(Path(at.clips, last))] else []
  }

  function Emptied(at: Place, drops: seq<string>): seq<Op> {
    if drops == [] then [] else
    Emptied(at, drops[..|drops| - 1]) + [Remove(Path(DropDir(at), drops[|drops| - 1]))]
  }

  /** The copy under the item's own name, which is joined to the drop directory as it is. */
  function Named(at: Place, item: Item): seq<Op> {
    if item.name != "" then Atomic(Resolve(at, item.name), item.data) else []
  }

  function Offer(at: Place, env: Env, item: Item): Path {
    var named := Resolve(at, item.name).file;
    if item.name != "" && named.Some? then named.value else Stable(at, env, item)
  }

  function CurrentOf(at: Place, env: Env, item: Item): Current {
    Current(HashOf(env, item), MimeOf(env, item), |item.data|, Some(Offer(at, env, item)), item.name)
  }

  function StoredAs(at: Place, env: Env, item: Item): Stored {
    Stored(Item(MimeOf(env, item), item.data, HashOf(env, item), item.name), Some(Offer(at, env, item)))
  }

  /** Everything between the object and `current.json`. */
  function Middle(at: Place, env: Env, item: Item, listing: seq<string>, drops: seq<string>): seq<Op> {
    Atomic(Plain(Stable(at, env, item)), item.data)
    + Cleanup(at, listing, Stable(at, env, item).name)
    + Emptied(at, drops)
    + Named(at, item)
  }

  function Front(at: Place, env: Env, item: Item, listing: seq<string>, drops: seq<string>): seq<Op> {
    Atomic(Plain(Object(at, HashOf(env, item))), item.data) + Middle(at, env, item, listing, drops)
  }

  function Back(at: Place, env: Env, json: Codec<Current>, item: Item): seq<Op> {
    Atomic(Plain(Meta(at)), json.encode(CurrentOf(at, env, item)))
  }

  function Plan(
    at: Place, env: Env, json: Codec<Current>, item: Item, listing: seq<string>, drops: seq<string>): seq<Op>
  {
    Front(at, env, item, listing, drops) + Back(at, env, json, item)
  }

  function Load(at: Place, json: Codec<Current>, files: Files): Current {
    if Meta(at) !in files then NO_CLIP else
    match json.decode(files[Meta(at)])
    case Some(c) => c
    case None => NO_CLIP
  }

  function View(at: Place, cur: Current, files: Files): Option<Stored> {
    if cur.hash == "" || Object(at, cur.hash) !in files then None
    else Some(Stored(Item(cur.mime, files[Object(at, cur.hash)], cur.hash, cur.name), cur.path))
  }

  class FileBackend {
    const at: Place
    const env: Env
    const json: Codec<Current>
    var cur: Current
    var disk: Disk

    constructor (at: Place, env: Env, json: Codec<Current>, disk: Disk)
      ensures this.at == at && this.env == env && this.json == json
      ensures this.disk == disk && cur == Load(at, json, disk.files)
    {
      this.at, this.env, this.json, this.disk := at, env, json, disk;
      cur := NO_CLIP;
      if Meta(at) in disk.files {
        var parsed := json.decode(disk.files[Meta(at)]);
        if parsed.Some? {
          cur := parsed.value;
        }
      }
    }

    /** `readable` tells whether the object can be read if it is there. */
    method GetItem(readable: bool) returns (r: Result<Option<Stored>, StoreError>)
      ensures r == if View(at, cur, disk.files).Some? && !readable then Err(Io) else Ok(View(at, cur, disk.files))
    {
      if cur.hash == "" {
        return Ok(None);
      }
      if Object(at, cur.hash) !in disk.files {
        return Ok(None);
      }
      if !readable {
        return Err(Io);
      }
      var data := disk.files[Object(at, cur.hash)];
      return Ok(Some(Stored(Item(cur.mime, data, cur.hash, cur.name), cur.path)));
    }

    method Execute(op: Op) returns (ok: bool)
      modifies this`disk
      ensures disk == Do(old(disk), op)
      ensures ok == (old(disk).left > 0 && !op.Refuse?)
    {
      ok := disk.left > 0 && !op.Refuse?;
      if ok {
        disk := Disk(Done(disk.files, op), disk.left - 1, disk.torn);
      } else {
        var files := disk.files;
        if op.Write? && disk.torn.Some? {
          files := files[op.path := disk.torn.value];
        }
        disk := Disk(files, 0, None);
      }
    }

    method WriteAtomic(target: Target, data: Bytes) returns (ok: bool)
      modifies this`disk
      ensures disk == DoAll(old(disk), Atomic(target, data))
      ensures ok == Carried(old(disk), Atomic(target, data))
    {
      var ops := Atomic(target, data);
      assert ops[..1] == [ops[0]] && [ops[0]][..0] == [] && ops == [ops[0], ops[1]];
      ok := Execute(ops[0]);
      assert disk == DoAll(old(disk), [ops[0]]);
      if !ok {
        return;
      }
      ok := Execute(ops[1]);
    }

    method DeleteStale(listing: seq<string>, stable: string)
      modifies this`disk
      ensures disk == DoAll(old(disk), Cleanup(at, listing, stable))
    {
      for i := 0 to |listing|
        invariant disk == DoAll(old(disk), Cleanup(at, listing[..i], stable))
      {
        ghost var ops := Cleanup(at, listing[..i], stable);
        assert listing[..i + 1][..i] == listing[..i] && ops + [] == ops;
        if Stale(listing[i], stable) {
          var op := Remove(Path(at.clips, listing[i]));
          OneMore(old(disk), ops, op);
          var _ := Execute(op);
        }
      }
      assert listing[..|listing|] == listing;
    }

    method RemoveDrop(drops: seq<string>)
      modifies this`disk
      ensures disk == DoAll(old(disk), Emptied(at, drops))
    {
      for i := 0 to |drops|
        invariant disk == DoAll(old(disk), Emptied(at, drops[..i]))
      {
        assert drops[..i + 1][..i] == drops[..i];
        var op := Remove(Path(DropDir(at), drops[i]));
        OneMore(old(disk), Emptied(at, drops[..i]), op);
        var _ := Execute(op);
      }
      assert drops[..|drops|] == drops;
    }

    /** The stable copy, the deletions, and the named copy; the deletions' own failures are ignored. */
    method Project(item: Item, listing: seq<string>, drops: seq<string>) returns (ok: bool)
      modifies this`disk
      ensures disk == DoAll(old(disk), Middle(at, env, item, listing, drops))
      ensures !ok ==> !Carried(old(disk), Middle(at, env, item, listing, drops))
    {
      var stable := Stable(at, env, item);
      ghost var was, copy, stale := disk, Atomic(Plain(stable), item.data), Cleanup(at, listing, stable.name);
      ghost var emptied, named := Emptied(at, drops), Named(at, item);
      assert Middle(at, env, item, listing, drops) == copy + stale + emptied + named;
      hide DoAll, Cleanup, Emptied, Middle, Stable, Resolve, Atomic, Carried;
      ok := WriteAtomic(Plain(stable), item.data);
      CarriedBoth(was, copy, stale);
      CarriedBoth(was, copy + stale, emptied);
      CarriedBoth(was, copy + stale + emptied, named);
      if !ok {
        StopsThere(was, copy, stale);
        StopsThere(was, copy + stale, emptied);
        StopsThere(was, copy + stale + emptied, named);
        return;
      }
      DeleteStale(listing, stable.name);
      DoBoth(was, copy, stale);
      RemoveDrop(drops);
      DoBoth(was, copy + stale, emptied);
      DoBoth(was, copy + stale + emptied, named);
      if item.name != "" {
        ok := WriteAtomic(Resolve(at, item.name), item.data);
      } else {
        NothingDone(disk);
      }
    }

    /** The object, what is projected from it, and last the record. */
    method Commit(item: Item, h: string, next: Current, listing: seq<string>, drops: seq<string>) returns (ok: bool)
      requires h == HashOf(env, item) && next == CurrentOf(at, env, item)
      modifies this`disk
      ensures disk == DoAll(old(disk), Plan(at, env, json, item, listing, drops))
      ensures ok == Carried(old(disk), Plan(at, env, json, item, listing, drops))
    {
      assert |Back(at, env, json, item)| == 2;
      hide DoAll, Carried, Middle, CurrentOf, HashOf, Atomic;
      ghost var content, middle := Atomic(Plain(Object(at, h)), item.data), Middle(at, env, item, listing, drops);
      ghost var was, back := disk, Back(at, env, json, item);
      CarriedBoth(was, content + middle, back);
      CarriedBoth(was, content, middle);
      DoBoth(was, content, middle);
      DoBoth(was, content + middle, back);
      ok := WriteAtomic(Plain(Object(at, h)), item.data);
      if !ok {
        StopsThere(was, content, middle);
        StopsThere(was, content + middle, back);
        return;
      }
      ok := Project(item, listing, drops);
      if !ok {
        StopsThere(was, content + middle, back);
        return;
      }
      ok := WriteAtomic(Plain(Meta(at)), json.encode(next));
    }

    method Set(item: Item, listing: seq<string>, drops: seq<string>) returns (r: Result<Stored, StoreError>)
      modifies this
      ensures |item.data| > MAX_CLIP ==> r == Err(ExceedsLimit) && cur == old(cur) && disk == old(disk)
      ensures |item.data| <= MAX_CLIP ==>
                var plan := Plan(at, env, json, item, listing, drops);
                && disk == DoAll(old(disk), plan)
                && if Carried(old(disk), plan)
                   then r == Ok(StoredAs(at, env, item)) && cur == CurrentOf(at, env, item)
                   else r == Err(Io) && cur == old(cur)
    {
      if |item.data| > MAX_CLIP {
        return Err(ExceedsLimit);
      }
      var mime := if item.mime == "" then env.mime(item.data) else item.mime;
      var h := if item.hash == "" then env.hash(item.data) else item.hash;
      var offer := Path(at.clips, "current" + Extension(mime));
      if item.name != "" {
        var dest := Resolve(at, item.name);
        offer := if dest.file.Some? then dest.file.value else offer;
      }
      var next := Current(h, mime, |item.data|, Some(offer), item.name);
      hide DoAll, Plan, Carried, Resolve, Extension;
      var ok := Commit(item, h, next, listing, drops);
      if !ok {
        return Err(Io);
      }
      cur := next;
      return Ok(Stored(Item(mime, item.data, h, item.name), Some(offer)));
    }
  }

  // What survives.

  /** The record, and the objects: a hash is no temporary name. */
  predicate Vital(at: Place, path: Path) {
    path == Meta(at) || (path.dir == ObjectsDir(at) && IsHash(path.name))
  }

  /** The file that the item's own name leads to, if the copy under that name can take place. */
  predicate LeadsTo(at: Place, item: Item, path: Path) {
    item.name != "" && Lands(Resolve(at, item.name)) && Resolve(at, item.name).file == Some(path)
  }

  /** The name leads to no vital file, except that it may lead to the item's own object. */
  predicate Harmless(at: Place, env: Env, item: Item) {
    var named := Resolve(at, item.name);
    item.name != "" && Lands(named) && Vital(at, named.file.value) ==> named.file.value == Object(at, HashOf(env, item))
  }

  lemma TmpIsNotVital(at: Place, path: Path)
    requires EndsInTmp(path.name)
    ensures !Vital(at, path)
  {
    var dot := path.name[|path.name| - 4];
    assert path.name[|path.name| - 4..][0] == '.' == dot && dot in path.name && !Text.IsHexDigit('.');
    assert path.name[|path.name| - 4..][3] == 'p';
    assert Meta(at).name[|Meta(at).name| - 1] == 'n';
  }

  lemma {:induction false} CleanupSpares(at: Place, listing: seq<string>, stable: string, path: Path)
    requires path.dir == at.clips ==> !Stale(path.name, stable)
    ensures Spares(Cleanup(at, listing, stable), path)
    decreases |listing|
  {
    if listing != [] {
      CleanupSpares(at, listing[..|listing| - 1], stable, path);
    }
  }

  lemma {:induction false} EmptiedSpares(at: Place, drops: seq<string>, path: Path)
    requires path.dir != DropDir(at)
    ensures Spares(Emptied(at, drops), path)
    decreases |drops|
  {
    if drops != [] {
      EmptiedSpares(at, drops[..|drops| - 1], path);
    }
  }

  lemma DirsDiffer(at: Place)
    ensures at.clips != DropDir(at) && DropDir(at) != ObjectsDir(at) && ObjectsDir(at) != at.clips
  {
    assert DropDir(at)[|at.clips|] == "drop" && ObjectsDir(at)[|at.clips|] == "objects";
    assert |"drop"| != |"objects"|;
  }

  lemma StableIsNotVital(at: Place, env: Env, item: Item)
    ensures !Vital(at, Stable(at, env, item)) && !Vital(at, Tmp(Stable(at, env, item)))
  {
    var stable := Stable(at, env, item);
    DirsDiffer(at);
    assert stable.name[7..] == Extension(MimeOf(env, item)) && Meta(at).name[7..] == ".json";
    assert Tmp(stable).name[7..] == Extension(MimeOf(env, item)) + ".tmp";
  }

  lemma NamedSpares(at: Place, item: Item, path: Path)
    requires Vital(at, path) && !LeadsTo(at, item, path)
    ensures Spares(Named(at, item), path)
  {
    ResolvedIs(at, item.name);
    hide Resolve;
    var named := Resolve(at, item.name);
    if named.tmp.Some? {
      TmpIsNotVital(at, named.tmp.value);
    }
  }

  lemma MiddleSpares(at: Place, env: Env, item: Item, listing: seq<string>, drops: seq<string>, path: Path)
    requires Vital(at, path) && !LeadsTo(at, item, path)
    ensures Spares(Middle(at, env, item, listing, drops), path)
  {
    var stable := Stable(at, env, item);
    DirsDiffer(at);
    assert path.dir == at.clips ==> !Stale(path.name, stable.name);
    CleanupSpares(at, listing, stable.name, path);
    EmptiedSpares(at, drops, path);
    StableIsNotVital(at, env, item);
    NamedSpares(at, item, path);
    hide Cleanup, Emptied, Extension, Vital, LeadsTo, Stable, Named;
    assert Spares(Atomic(Plain(stable), item.data), path);
  }

  /** The file the name leads to gets the data, if the middle is carried out. */
  lemma MiddleNames(at: Place, env: Env, d: Disk, item: Item, listing: seq<string>, drops: seq<string>, path: Path)
    requires Carried(d, Middle(at, env, item, listing, drops)) && LeadsTo(at, item, path)
    ensures Get(DoAll(d, Middle(at, env, item, listing, drops)).files, path) == Some(item.data)
  {
    var stable := Stable(at, env, item);
    var front := Atomic(Plain(stable), item.data) + Cleanup(at, listing, stable.name) + Emptied(at, drops);
    var named := Named(at, item);
    assert Middle(at, env, item, listing, drops) == front + named;
    ResolvedIs(at, item.name);
    hide DoAll, Cleanup, Emptied, Middle, Resolve, Extension;
    DoBoth(d, front, named);
    CarriedBoth(d, front, named);
    AtomicWrites(DoAll(d, front), Resolve(at, item.name), item.data);
  }

  /** The item's own object may be written again, with the same data. */
  lemma MiddleKeeps(at: Place, env: Env, d: Disk, item: Item, listing: seq<string>, drops: seq<string>, path: Path)
    requires Vital(at, path) && (LeadsTo(at, item, path) ==> Get(d.files, path) == Some(item.data))
    ensures Get(DoAll(d, Middle(at, env, item, listing, drops)).files, path) == Get(d.files, path)
  {
    if !LeadsTo(at, item, path) {
      MiddleSpares(at, env, item, listing, drops, path);
      SparedStays(d, Middle(at, env, item, listing, drops), path);
    } else {
      var nameless := item.(name := "");
      var front := Middle(at, env, nameless, listing, drops);
      assert Middle(at, env, item, listing, drops) == front + Named(at, item);
      MiddleSpares(at, env, nameless, listing, drops, path);
      ResolvedIs(at, item.name);
      hide DoAll, Middle, Resolve, Vital;
      SparedStays(d, front, path);
      DoBoth(d, front, Named(at, item));
      AtomicWrites(DoAll(d, front), Resolve(at, item.name), item.data);
    }
  }

  // One set, cut short anywhere.

  /** Objects are stored under the hash of their content, and the record names one by a hash or none. */
  ghost predicate Sane(at: Place, env: Env, json: Codec<Current>, files: Files) {
    && (Load(at, json, files).hash == "" || IsHash(Load(at, json, files).hash))
    && forall h: string :: IsHash(h) && Object(at, h) in files ==> env.hash(files[Object(at, h)]) == h
  }

  function ViewOn(at: Place, json: Codec<Current>, files: Files): Option<Stored> {
    View(at, Load(at, json, files), files)
  }

  lemma FrontLeaves(at: Place, env: Env, d: Disk, item: Item, listing: seq<string>, drops: seq<string>, path: Path)
    requires Vital(at, path) && IsHash(HashOf(env, item)) && Harmless(at, env, item)
    ensures Get(DoAll(d, Front(at, env, item, listing, drops)).files, path) ==
              if path == Object(at, HashOf(env, item)) && 2 <= d.left then Some(item.data) else Get(d.files, path)
  {
    var own := Object(at, HashOf(env, item));
    var content, middle := Atomic(Plain(own), item.data), Middle(at, env, item, listing, drops);
    var d1 := DoAll(d, content);
    DirsDiffer(at);
    TmpIsNotVital(at, Tmp(own));
    LeftIs(d, content);
    AtomicWrites(d, Plain(own), item.data);
    assert LeadsTo(at, item, path) ==> path == own;
    hide DoAll, Middle, Vital, Harmless, LeadsTo;
    DoBoth(d, content, middle);
    if 2 <= d.left || !LeadsTo(at, item, path) {
      MiddleKeeps(at, env, d1, item, listing, drops, path);
    } else {
      DeadStays(d1, middle);
    }
  }

  /** The vital files after a set: the object is new after two operations, the record after all of them. */
  lemma SetLeaves(
    at: Place, env: Env, json: Codec<Current>, d: Disk, item: Item, listing: seq<string>, drops: seq<string>,
    path: Path)
    requires Vital(at, path) && IsHash(HashOf(env, item)) && Harmless(at, env, item)
    ensures var plan := Plan(at, env, json, item, listing, drops);
            Get(DoAll(d, plan).files, path) ==
              if path == Meta(at) && Carried(d, plan) then Some(json.encode(CurrentOf(at, env, item)))
              else if path == Object(at, HashOf(env, item)) && 2 <= d.left then Some(item.data)
              else Get(d.files, path)
  {
    var front, back := Front(at, env, item, listing, drops), Back(at, env, json, item);
    var record := json.encode(CurrentOf(at, env, item));
    DirsDiffer(at);
    TmpIsNotVital(at, Tmp(Meta(at)));
    assert back == Atomic(Plain(Meta(at)), record) && |back| == 2;
    hide DoAll, Front, Vital, Harmless, Carried, CurrentOf, Atomic;
    DoBoth(d, front, back);
    CarriedBoth(d, front, back);
    FrontLeaves(at, env, d, item, listing, drops, path);
    BackWrites(at, DoAll(d, front), record);
  }

  lemma BackWrites(at: Place, d: Disk, record: Bytes)
    ensures var files := DoAll(d, Atomic(Plain(Meta(at)), record)).files;
            && Get(files, Meta(at)) ==
                 (if Carried(d, Atomic(Plain(Meta(at)), record)) then Some(record) else Get(d.files, Meta(at)))
            && forall path :: path != Meta(at) && path != Tmp(Meta(at)) ==> Get(files, path) == Get(d.files, path)
  {
    AtomicWrites(d, Plain(Meta(at)), record);
  }

  /**
   * What `set` is for, at one disk: the new item after all of it, and before that the old one or the new
   * data, complete.
   */
  ghost predicate OldOrNew(
    at: Place, env: Env, json: Codec<Current>, d: Disk, item: Item, listing: seq<string>, drops: seq<string>)
  {
    var plan := Plan(at, env, json, item, listing, drops);
    var view, cur := ViewOn(at, json, DoAll(d, plan).files), Load(at, json, d.files);
    if Carried(d, plan) then view == Some(StoredAs(at, env, item)) else
    || view == ViewOn(at, json, d.files)
    || (cur.hash == HashOf(env, item) && view == Some(Stored(Item(cur.mime, item.data, cur.hash, cur.name), cur.path)))
  }

  /**
   * However many of its operations a set carries out, and whatever the write it was cut in leaves
   * behind: the store then shows what it showed before, complete, or the new data, complete; and
   * after all of them exactly the new item.  The record is the old one until then.
   */
  lemma SetIsAtomic(
    at: Place, env: Env, json: Codec<Current>, d: Disk, item: Item, listing: seq<string>, drops: seq<string>)
    requires CodecLaw(json) && HashLaw(env) && LocalItem(env, item)
    requires Sane(at, env, json, d.files) && Harmless(at, env, item)
    ensures var plan := Plan(at, env, json, item, listing, drops);
            var files := DoAll(d, plan).files;
            && OldOrNew(at, env, json, d, item, listing, drops) && Sane(at, env, json, files)
            && Load(at, json, files) ==
                 if Carried(d, plan) then CurrentOf(at, env, item) else Load(at, json, d.files)
  {
    var plan, h := Plan(at, env, json, item, listing, drops), HashOf(env, item);
    assert IsHash(env.hash(item.data)) && env.hash(item.data) == h;
    var files, next := DoAll(d, plan).files, CurrentOf(at, env, item);
    assert Carried(d, plan) ==> 2 <= d.left by {
      PlanIsLong(at, env, json, item, listing, drops);
    }
    hide DoAll, Plan, Carried, Harmless, IsHash, HashOf, Offer;
    assert json.decode(json.encode(next)) == Some(next);
    SetLeaves(at, env, json, d, item, listing, drops, Meta(at));
    forall x: string | IsHash(x)
      ensures Get(files, Object(at, x)) ==
                if x == h && 2 <= d.left then Some(item.data) else Get(d.files, Object(at, x))
    {
      DirsDiffer(at);
      SetLeaves(at, env, json, d, item, listing, drops, Object(at, x));
    }
  }

  lemma PlanIsLong(
    at: Place, env: Env, json: Codec<Current>, item: Item, listing: seq<string>, drops: seq<string>)
    ensures 6 <= |Plan(at, env, json, item, listing, drops)|
  {
  }

  // The condition is exact.

  lemma SixOperations(at: Place, env: Env, json: Codec<Current>, files: Files, item: Item, path: Path)
    requires LeadsTo(at, item, path)
    ensures |Front(at, env, item, [], [])| == 6 && Refuse !in Front(at, env, item, [], [])
    ensures |Middle(at, env, item, [], [])| == 4 && |Back(at, env, json, item)| == 2
  {
    hide Resolve, Extension;
  }

  /** Six operations lead up to the record: the object, the stable copy and the named one. */
  lemma CutBeforeRecord(at: Place, env: Env, json: Codec<Current>, files: Files, item: Item, path: Path)
    requires LeadsTo(at, item, path) && Vital(at, path)
    ensures var d := Disk(files, 6, None);
            var plan := Plan(at, env, json, item, [], []);
            && !Carried(d, plan) && Get(DoAll(d, plan).files, path) == Some(item.data)
            && (path != Meta(at) ==> Get(DoAll(d, plan).files, Meta(at)) == Get(files, Meta(at)))
  {
    var d, front, back := Disk(files, 6, None), Front(at, env, item, [], []), Back(at, env, json, item);
    var content, middle := Atomic(Plain(Object(at, HashOf(env, item))), item.data), Middle(at, env, item, [], []);
    SixOperations(at, env, json, files, item, path);
    LeftIs(d, front);
    hide DoAll, Middle, LeadsTo, Vital;
    DoBoth(d, front, back);
    DeadStays(DoAll(d, front), back);
    DoBoth(d, content, middle);
    CarriedBoth(d, content, middle);
    MiddleNames(at, env, DoAll(d, content), item, [], [], path);
    if path != Meta(at) {
      RecordStays(at, env, d, item, path);
    }
  }

  lemma RecordStays(at: Place, env: Env, d: Disk, item: Item, path: Path)
    requires LeadsTo(at, item, path) && path != Meta(at)
    ensures Get(DoAll(d, Front(at, env, item, [], [])).files, Meta(at)) == Get(d.files, Meta(at))
  {
    var own := Object(at, HashOf(env, item));
    var content, middle := Atomic(Plain(own), item.data), Middle(at, env, item, [], []);
    DirsDiffer(at);
    TmpIsNotVital(at, Tmp(own));
    MiddleSpares(at, env, item, [], [], Meta(at));
    hide DoAll, Middle, Resolve, Tmp, Extension;
    DoBoth(d, content, middle);
    AtomicWrites(d, Plain(own), item.data);
    SparedStays(DoAll(d, content), middle, Meta(at));
  }

  /** A name that leads to the record: for one of two stores, that of a clip whose MIME type was not to be seen. */
  lemma RecordIsOverwritten(at: Place, env: Env, json: Codec<Current>, item: Item) returns (files: Files)
    requires CodecLaw(json) && HashLaw(env) && LeadsTo(at, item, Meta(at))
    ensures Sane(at, env, json, files) && !OldOrNew(at, env, json, Disk(files, 6, None), item, [], [])
  {
    var seen := match json.decode(item.data) case Some(c) => c case None => NO_CLIP;
    var x := env.hash([]);
    assert IsHash(x);
    var cur := Current(x, if seen.mime == "0" then "1" else "0", 0, None, "");
    assert json.decode(json.encode(cur)) == Some(cur);
    DirsDiffer(at);
    files := map[Object(at, x) := [], Meta(at) := json.encode(cur)];
    hide DoAll, Plan, Carried, IsHash, LeadsTo;
    CutBeforeRecord(at, env, json, files, item, Meta(at));
  }

  /** A name that leads to another object than the item's own: for the store whose record names that object. */
  lemma ObjectIsOverwritten(at: Place, env: Env, json: Codec<Current>, item: Item, x: string) returns (files: Files)
    requires CodecLaw(json) && HashLaw(env) && LeadsTo(at, item, Object(at, x)) && IsHash(x) && x != HashOf(env, item)
    ensures Sane(at, env, json, files) && !OldOrNew(at, env, json, Disk(files, 6, None), item, [], [])
  {
    var cur := Current(x, "", 0, None, "");
    assert json.decode(json.encode(cur)) == Some(cur);
    DirsDiffer(at);
    files := map[Meta(at) := json.encode(cur)];
    assert Vital(at, Object(at, x)) && x != "";
    hide DoAll, Plan, Carried, IsHash, LeadsTo, HashOf;
    CutBeforeRecord(at, env, json, files, item, Object(at, x));
  }

  /** A set is atomic at every disk exactly for items whose name is harmless. */
  lemma SetIsAtomicIff(at: Place, env: Env, json: Codec<Current>, item: Item)
    requires CodecLaw(json) && HashLaw(env) && LocalItem(env, item)
    ensures Harmless(at, env, item) <==>
              forall d: Disk, listing, drops :: Sane(at, env, json, d.files) ==>
                OldOrNew(at, env, json, d, item, listing, drops)
  {
    if Harmless(at, env, item) {
      hide Sane, OldOrNew, Harmless;
      forall d: Disk, listing, drops | Sane(at, env, json, d.files)
        ensures OldOrNew(at, env, json, d, item, listing, drops)
      {
        SetIsAtomic(at, env, json, d, item, listing, drops);
      }
    } else {
      var path := Resolve(at, item.name).file.value;
      assert LeadsTo(at, item, path);
      assert path.dir == ObjectsDir(at) ==> path == Object(at, path.name);
      hide Sane, OldOrNew, Resolve;
      var files: Files;
      if path == Meta(at) {
        files := RecordIsOverwritten(at, env, json, item);
      } else {
        files := ObjectIsOverwritten(at, env, json, item, path.name);
      }
      assert Disk(files, 6, None).files == files;
    }
  }

  /** Names without separators, as `sanitize_basename` makes them, are harmless. */
  lemma FlatNamesAreHarmless(at: Place, env: Env, item: Item)
    requires '/' !in item.name
    ensures Harmless(at, env, item)
  {
    FlatNamesStay(at, item.name);
    DirsDiffer(at);
    hide Resolve;
  }

  lemma HashIsProper(x: string)
    requires IsHash(x)
    ensures Proper(x)
  {
    assert !Text.IsHexDigit('/') && !Text.IsHexDigit('\0');
    assert |x| == 64 && |"."| == 1 && |".."| == 2;
  }

  /**
   * An input that shows it: the name "../objects/" followed by the hash on record, as a received clip
   * may carry it.  Cut before the record, the set leaves the new data under the old hash.
   */
  lemma NameIntoObjects(at: Place, env: Env, json: Codec<Current>, files: Files, item: Item)
    requires CodecLaw(json) && HashLaw(env) && LocalItem(env, item) && Sane(at, env, json, files)
    requires var x := Load(at, json, files).hash;
             && x != "" && x != HashOf(env, item) && item.name == "../objects/" + x
             && !Exists(at, ObjectsDir(at) + [x]) && !Exists(at, ObjectsDir(at) + [x + ".tmp"])
    ensures var cur, d := Load(at, json, files), Disk(files, 6, None);
            && ViewOn(at, json, DoAll(d, Plan(at, env, json, item, [], [])).files)
                 == Some(Stored(Item(cur.mime, item.data, cur.hash, cur.name), cur.path))
            && env.hash(item.data) != cur.hash && !Harmless(at, env, item)
  {
    var x := Load(at, json, files).hash;
    HashIsProper(x);
    DirsDiffer(at);
    hide DoAll, Plan, Exists, Resolve, IsHash;
    NameOfObject(at, x);
    assert LeadsTo(at, item, Object(at, x)) && Vital(at, Object(at, x));
    CutBeforeRecord(at, env, json, files, item, Object(at, x));
  }

  /** And the name "../current.json" leads to the record. */
  lemma NameOfRecord(at: Place, item: Item)
    requires item.name == "../current.json"
    requires !Exists(at, at.clips + ["current.json"]) && !Exists(at, at.clips + ["current.json" + ".tmp"])
    ensures LeadsTo(at, item, Meta(at))
  {
    hide Resolve;
    NameOfSibling(at, "current.json");
    assert "../" + "current.json" == "../current.json";
  }

  // A set carried out to the end.

  lemma {:induction false} CleanupDeletes(at: Place, d: Disk, listing: seq<string>, stable: string, name: string)
    requires Carried(d, Cleanup(at, listing, stable)) && Stale(name, stable)
    requires name in listing || Path(at.clips, name) !in d.files
    ensures Path(at.clips, name) !in DoAll(d, Cleanup(at, listing, stable)).files
    decreases |listing|
  {
    hide DoAll, Stale, Carried;
    if listing == [] {
      NothingDone(d);
    } else {
      var front, last := listing[..|listing| - 1], listing[|listing| - 1];
      var ops, path := Cleanup(at, front, stable), Path(at.clips, name);
      var tail := if Stale(last, stable) then [Remove(Path(at.clips, last))] else [];
      assert listing == front + [last] && Cleanup(at, listing, stable) == ops + tail;
      hide Cleanup;
      CarriedBoth(d, ops, tail);
      DoBoth(d, ops, tail);
      RemovesOne(DoAll(d, ops), Path(at.clips, last), Stale(last, stable));
      if last != name {
        CleanupDeletes(at, d, front, stable, name);
      }
    }
  }

  lemma RemovesOne(d: Disk, path: Path, really: bool)
    ensures var ops := if really then [Remove(path)] else [];
            && (Carried(d, ops) && really ==> path !in DoAll(d, ops).files)
            && forall other :: other in DoAll(d, ops).files ==> other in d.files
  {
    NothingDone(d);
    OneMore(d, [], Remove(path));
    assert [] + [Remove(path)] == [Remove(path)];
  }

  /** The middle of a set, carried out: the offered file holds the data. */
  lemma MiddleOffers(at: Place, env: Env, d: Disk, item: Item, listing: seq<string>, drops: seq<string>)
    requires Carried(d, Middle(at, env, item, listing, drops))
    ensures Get(DoAll(d, Middle(at, env, item, listing, drops)).files, Offer(at, env, item)) == Some(item.data)
  {
    if item.name != "" {
      assert Named(at, item)[1] in Middle(at, env, item, listing, drops);
      assert LeadsTo(at, item, Offer(at, env, item));
      MiddleNames(at, env, d, item, listing, drops, Offer(at, env, item));
    } else {
      var stable := Stable(at, env, item);
      var copy := Atomic(Plain(stable), item.data);
      var stale, emptied := Cleanup(at, listing, stable.name), Emptied(at, drops);
      hide Extension, DoAll;
      assert Middle(at, env, item, listing, drops) == copy + stale + emptied;
      DirsDiffer(at);
      CleanupSpares(at, listing, stable.name, stable);
      EmptiedSpares(at, drops, stable);
      hide Cleanup, Emptied, Stale, Middle;
      CarriedBoth(d, copy + stale, emptied);
      CarriedBoth(d, copy, stale);
      DoBoth(d, copy, stale);
      DoBoth(d, copy + stale, emptied);
      AtomicWrites(d, Plain(stable), item.data);
      SparedStays(DoAll(d, copy), stale, stable);
      SparedStays(DoAll(d, copy + stale), emptied, stable);
    }
  }

  /** And of the files that start with "current", the stale ones are gone. */
  lemma MiddleCleansUp(
    at: Place, env: Env, d: Disk, item: Item, listing: seq<string>, drops: seq<string>, name: string)
    requires Carried(d, Middle(at, env, item, listing, drops)) && Path(at.clips, name) != Offer(at, env, item)
    requires Stale(name, Stable(at, env, item).name) && (name in listing || Path(at.clips, name) !in d.files)
    ensures Path(at.clips, name) !in DoAll(d, Middle(at, env, item, listing, drops)).files
  {
    var stable, path := Stable(at, env, item), Path(at.clips, name);
    var copy, stale, emptied := Atomic(Plain(stable), item.data), Cleanup(at, listing, stable.name), Emptied(at, drops);
    var named := Named(at, item);
    assert Middle(at, env, item, listing, drops) == copy + stale + emptied + named;
    assert path != stable && |copy| == 2;
    DirsDiffer(at);
    EmptiedSpares(at, drops, path);
    hide Extension, DoAll, Stale, Cleanup, Emptied, Middle, Spares, Atomic, Stable, Tmp, Carried, Offer, Named;
    CarriedBoth(d, copy + stale + emptied, named);
    CarriedBoth(d, copy + stale, emptied);
    CarriedBoth(d, copy, stale);
    DoBoth(d, copy, stale);
    DoBoth(d, copy + stale, emptied);
    DoBoth(d, copy + stale + emptied, named);
    AtomicAddsNone(d, Plain(stable), item.data, path);
    CleanupDeletes(at, DoAll(d, copy), listing, stable.name, name);
    SparedStays(DoAll(d, copy + stale), emptied, path);
    NamedAddsNone(at, env, DoAll(d, copy + stale + emptied), item, path);
    GetIs(DoAll(d, copy + stale).files, path);
    GetIs(DoAll(d, copy + stale + emptied).files, path);
  }

  /** Carried out, an atomic write leaves no new file but its own. */
  lemma AtomicAddsNone(d: Disk, target: Target, data: Bytes, path: Path)
    requires Carried(d, Atomic(target, data)) && target.tmp != target.file && target.file != Some(path)
    ensures path in DoAll(d, Atomic(target, data)).files ==> path in d.files
  {
    var files := DoAll(d, Atomic(target, data)).files;
    AtomicWrites(d, target, data);
    hide DoAll, Atomic;
    GetIs(files, path);
    GetIs(d.files, path);
  }

  lemma NamedAddsNone(at: Place, env: Env, d: Disk, item: Item, path: Path)
    requires Carried(d, Named(at, item)) && path != Offer(at, env, item)
    ensures path in DoAll(d, Named(at, item)).files ==> path in d.files
  {
    if item.name == "" {
      NothingDone(d);
    } else {
      var target := Resolve(at, item.name);
      ResolvedIs(at, item.name);
      hide Resolve, DoAll;
      AtomicAddsNone(d, target, item.data, path);
    }
  }

  /** The path a completed set returns holds the data, unless the name led to the record or its temporary file. */
  lemma CompletedSetOffers(
    at: Place, env: Env, json: Codec<Current>, d: Disk, item: Item, listing: seq<string>, drops: seq<string>)
    requires Carried(d, Plan(at, env, json, item, listing, drops))
    ensures var files, offer := DoAll(d, Plan(at, env, json, item, listing, drops)).files, Offer(at, env, item);
            Get(files, offer) ==
              if offer == Meta(at) then Some(json.encode(CurrentOf(at, env, item)))
              else if offer == Tmp(Meta(at)) then None
              else Some(item.data)
  {
    var content, middle, back :=
      Atomic(Plain(Object(at, HashOf(env, item))), item.data), Middle(at, env, item, listing, drops),
      Back(at, env, json, item);
    var d2 := DoAll(d, content + middle);
    assert Tmp(Meta(at)).name != Meta(at).name;
    hide DoAll, Middle, Offer, Carried, CurrentOf;
    DoBoth(d, content, middle);
    DoBoth(d, content + middle, back);
    CarriedBoth(d, content + middle, back);
    CarriedBoth(d, content, middle);
    MiddleOffers(at, env, DoAll(d, content), item, listing, drops);
    AtomicWrites(d2, Plain(Meta(at)), json.encode(CurrentOf(at, env, item)));
    GetIs(DoAll(d2, back).files, Tmp(Meta(at)));
  }

  /**
   * After a completed set, of the files that start with "current" only the stable copy, the record
   * and the offered file are left, provided the listing missed no other.
   */
  lemma CompletedSetCleansUp(
    at: Place, env: Env, json: Codec<Current>, d: Disk, item: Item, listing: seq<string>, drops: seq<string>,
    name: string)
    requires Carried(d, Plan(at, env, json, item, listing, drops))
    requires Path(at.clips, name) in d.files && Stale(name, Stable(at, env, item).name) ==> name in listing
    ensures Path(at.clips, name) in DoAll(d, Plan(at, env, json, item, listing, drops)).files && "current" <= name ==>
              || name == Stable(at, env, item).name || name == "current.json"
              || Path(at.clips, name) == Offer(at, env, item)
  {
    var content, middle, back :=
      Atomic(Plain(Object(at, HashOf(env, item))), item.data), Middle(at, env, item, listing, drops),
      Back(at, env, json, item);
    var d2, path := DoAll(d, content + middle), Path(at.clips, name);
    DirsDiffer(at);
    assert Tmp(Meta(at)) != Meta(at) && (name != "current.json" ==> path != Meta(at));
    hide DoAll, Middle, Tmp, Stable, Offer, Carried, CurrentOf, Atomic;
    DoBoth(d, content, middle);
    DoBoth(d, content + middle, back);
    CarriedBoth(d, content + middle, back);
    CarriedBoth(d, content, middle);
    if Stale(name, Stable(at, env, item).name) && path != Offer(at, env, item) {
      AtomicAddsNone(d, Plain(Object(at, HashOf(env, item))), item.data, path);
      MiddleCleansUp(at, env, DoAll(d, content), item, listing, drops, name);
      AtomicAddsNone(d2, Plain(Meta(at)), json.encode(CurrentOf(at, env, item)), path);
    }
  }

  // Runs: sets that may be cut short, after any of which the daemon may be started again.

  datatype Attempt = Attempt(
    item: Item, listing: seq<string>, drops: seq<string>, left: nat, torn: Option<Bytes>, restarts: bool)

  datatype Machine = Machine(cur: Current, files: Files)

  function PlanOf(at: Place, env: Env, json: Codec<Current>, a: Attempt): seq<Op> {
    Plan(at, env, json, a.item, a.listing, a.drops)
  }

  predicate Completes(at: Place, env: Env, json: Codec<Current>, a: Attempt) {
    |a.item.data| <= MAX_CLIP && Carried(Disk(map[], a.left, a.torn), PlanOf(at, env, json, a))
  }

  function Step(at: Place, env: Env, json: Codec<Current>, m: Machine, a: Attempt): Machine {
    var files := if |a.item.data| > MAX_CLIP then m.files
                 else DoAll(Disk(m.files, a.left, a.torn), PlanOf(at, env, json, a)).files;
    Machine(
      if a.restarts then Load(at, json, files)
      else if Completes(at, env, json, a) then CurrentOf(at, env, a.item)
      else m.cur,
      files)
  }

  function After(at: Place, env: Env, json: Codec<Current>, start: Machine, attempts: seq<Attempt>): Machine {
    if attempts == [] then start else
    Step(at, env, json, After(at, env, json, start, attempts[..|attempts| - 1]), attempts[|attempts| - 1])
  }

  /** The record of the last completed set, or the one at the start. */
  function Latest(at: Place, env: Env, json: Codec<Current>, start: Current, attempts: seq<Attempt>): Current {
    if attempts == [] then start else
    var last := attempts[|attempts| - 1];
    if Completes(at, env, json, last) then CurrentOf(at, env, last.item)
    else Latest(at, env, json, start, attempts[..|attempts| - 1])
  }

  /** The data of the last completed set, or at the start, and of sets cut short since with the very same hash. */
  function Candidates(
    at: Place, env: Env, json: Codec<Current>, start: Machine, attempts: seq<Attempt>): set<Option<Bytes>>
  {
    if attempts == [] then {DataOf(View(at, start.cur, start.files))} else
    var front, last := attempts[..|attempts| - 1], attempts[|attempts| - 1];
    var before := Candidates(at, env, json, start, front);
    if Completes(at, env, json, last) then {Some(last.item.data)}
    else if |last.item.data| > MAX_CLIP then before
    else if Latest(at, env, json, start.cur, front).hash != HashOf(env, last.item) then before
    else before + {Some(last.item.data)}
  }

  function DataOf(view: Option<Stored>): Option<Bytes> {
    if view.Some? then Some(view.value.item.data) else None
  }

  /** In memory and on disk the same record, and a sane store. */
  ghost predicate Settled(at: Place, env: Env, json: Codec<Current>, m: Machine) {
    Sane(at, env, json, m.files) && m.cur == Load(at, json, m.files)
  }

  lemma StepSettles(at: Place, env: Env, json: Codec<Current>, m: Machine, a: Attempt)
    requires CodecLaw(json) && HashLaw(env) && Settled(at, env, json, m)
    requires LocalItem(env, a.item) && Harmless(at, env, a.item)
    ensures var m' := Step(at, env, json, m, a);
            && Settled(at, env, json, m')
            && m'.cur == (if Completes(at, env, json, a) then CurrentOf(at, env, a.item) else m.cur)
            && DataOf(View(at, m'.cur, m'.files)) in
                 if Completes(at, env, json, a) then {Some(a.item.data)}
                 else if |a.item.data| > MAX_CLIP || m.cur.hash != HashOf(env, a.item)
                 then {DataOf(View(at, m.cur, m.files))}
                 else {DataOf(View(at, m.cur, m.files)), Some(a.item.data)}
  {
    hide DoAll, Plan, HashOf, Harmless, Sane, Offer, LocalItem;
    if |a.item.data| <= MAX_CLIP {
      SetIsAtomic(at, env, json, Disk(m.files, a.left, a.torn), a.item, a.listing, a.drops);
    }
  }

  lemma SettledMatches(at: Place, env: Env, json: Codec<Current>, m: Machine)
    requires Settled(at, env, json, m)
    ensures var view := View(at, m.cur, m.files); view.Some? ==> env.hash(view.value.item.data) == m.cur.hash
  {
    hide IsHash;
  }

  /**
   * Over any run the record is that of the last completed set, in memory and after a restart, so `get`
   * shows its hash, MIME type, name and path.  The data matches that hash, and is that of the last
   * completed set, or that of a later one with the same hash.
   */
  lemma {:induction false} EveryRunShowsOneItem(
    at: Place, env: Env, json: Codec<Current>, start: Machine, attempts: seq<Attempt>)
    requires CodecLaw(json) && HashLaw(env) && Settled(at, env, json, start)
    requires forall a :: a in attempts ==> LocalItem(env, a.item) && Harmless(at, env, a.item)
    ensures var m := After(at, env, json, start, attempts);
            var view := View(at, m.cur, m.files);
            && Settled(at, env, json, m)
            && m.cur == Latest(at, env, json, start.cur, attempts)
            && DataOf(view) in Candidates(at, env, json, start, attempts)
            && (view.Some? ==> env.hash(view.value.item.data) == m.cur.hash)
    decreases |attempts|
  {
    hide Step, Completes, HashOf, Harmless, LocalItem, Settled, View, DataOf, CurrentOf;
    if attempts != [] {
      var front, a := attempts[..|attempts| - 1], attempts[|attempts| - 1];
      assert a in attempts && forall x :: x in front ==> x in attempts;
      EveryRunShowsOneItem(at, env, json, start, front);
      StepSettles(at, env, json, After(at, env, json, start, front), a);
    }
    SettledMatches(at, env, json, After(at, env, json, start, attempts));
  }
}
