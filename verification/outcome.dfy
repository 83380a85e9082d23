/** What a set of the file clipboard comes to, file by file: what is there afterwards, and what it never touches. */
module Outcomes {
  import opened Basics
  import opened Clips
  import opened Disks
  import opened FileStore

  // The drop directory.

  lemma {:induction false} EmptiedDeletes(at: Place, d: Disk, drops: seq<string>, name: string)
    requires Carried(d, Emptied(at, drops)) && (name in drops || Path(DropDir(at), name) !in d.files)
    ensures Path(DropDir(at), name) !in DoAll(d, Emptied(at, drops)).files
    decreases |drops|
  {
    hide DoAll, Carried;
    if drops == [] {
      NothingDone(d);
    } else {
      var front, last := drops[..|drops| - 1], drops[|drops| - 1];
      var ops, op := Emptied(at, front), Remove(Path(DropDir(at), last));
      assert drops == front + [last] && Emptied(at, drops) == ops + [op];
      hide Emptied;
      CarriedBoth(d, ops, [op]);
      DoBoth(d, ops, [op]);
      RemovesOne(DoAll(d, ops), Path(DropDir(at), last), true);
      if last != name {
        EmptiedDeletes(at, d, front, name);
      }
    }
  }

  lemma MiddleEmptiesDrop(
    at: Place, env: Env, d: Disk, item: Item, listing: seq<string>, drops: seq<string>, name: string)
    requires Carried(d, Middle(at, env, item, listing, drops)) && Path(DropDir(at), name) != Offer(at, env, item)
    requires name in drops || Path(DropDir(at), name) !in d.files
    ensures Path(DropDir(at), name) !in DoAll(d, Middle(at, env, item, listing, drops)).files
  {
    var stable, path := Stable(at, env, item), Path(DropDir(at), name);
    var copy, stale, emptied := Atomic(Plain(stable), item.data), Cleanup(at, listing, stable.name), Emptied(at, drops);
    var named := Named(at, item);
    assert Middle(at, env, item, listing, drops) == copy + stale + emptied + named;
    DirsDiffer(at);
    assert path != stable && Tmp(stable) != stable by {
      StableIsNotVital(at, env, item);
    }
    CleanupSpares(at, listing, stable.name, path);
    hide Extension, DoAll, Cleanup, Emptied, Middle, Spares, Atomic, Stable, Tmp, Carried, Offer, Named;
    CarriedBoth(d, copy + stale + emptied, named);
    CarriedBoth(d, copy + stale, emptied);
    CarriedBoth(d, copy, stale);
    DoBoth(d, copy, stale);
    DoBoth(d, copy + stale, emptied);
    DoBoth(d, copy + stale + emptied, named);
    AtomicAddsNone(d, Plain(stable), item.data, path);
    SparedStays(DoAll(d, copy), stale, path);
    GetIs(DoAll(d, copy).files, path);
    GetIs(DoAll(d, copy + stale).files, path);
    EmptiedDeletes(at, DoAll(d, copy + stale), drops, name);
    NamedAddsNone(at, env, DoAll(d, copy + stale + emptied), item, path);
  }

  /**
   * After a completed set the offered file is the only one left in the drop directory, of those that were
   * listed for removal or were not there before.
   */
  lemma CompletedSetEmptiesDrop(
    at: Place, env: Env, json: Codec<Current>, d: Disk, item: Item, listing: seq<string>, drops: seq<string>,
    name: string)
    requires Carried(d, Plan(at, env, json, item, listing, drops))
    requires Path(at.clips + ["drop"], name) in d.files ==> name in drops
    ensures Path(at.clips + ["drop"], name) in DoAll(d, Plan(at, env, json, item, listing, drops)).files ==>
              Path(at.clips + ["drop"], name) == Offer(at, env, item)
  {
    var content, middle, back :=
      Atomic(Plain(Object(at, HashOf(env, item))), item.data), Middle(at, env, item, listing, drops),
      Back(at, env, json, item);
    var d2, path := DoAll(d, content + middle), Path(DropDir(at), name);
    DirsDiffer(at);
    var own := Object(at, HashOf(env, item));
    assert Tmp(Meta(at)) != Meta(at) && path != Meta(at) && Tmp(own) != own && path != own;
    hide DoAll, Middle, Tmp, Offer, Carried, CurrentOf, Atomic;
    DoBoth(d, content, middle);
    DoBoth(d, content + middle, back);
    CarriedBoth(d, content + middle, back);
    CarriedBoth(d, content, middle);
    if path != Offer(at, env, item) {
      AtomicAddsNone(d, Plain(own), item.data, path);
      MiddleEmptiesDrop(at, env, DoAll(d, content), item, listing, drops, name);
      AtomicAddsNone(d2, Plain(Meta(at)), json.encode(CurrentOf(at, env, item)), path);
    }
  }

  // The files of a set.

  /** No file a set is about: its object, a current file, one listed in the drop directory, or what the name is. */
  predicate Unrelated(at: Place, env: Env, item: Item, drops: seq<string>, path: Path) {
    && (path.dir == ObjectsDir(at) ==> path.name != HashOf(env, item) && path.name != HashOf(env, item) + ".tmp")
    && (path.dir == at.clips ==> !("current" <= path.name))
    && (path.dir == DropDir(at) ==> path.name !in drops)
    && (item.name != "" ==> Some(path) != Resolve(at, item.name).file && Some(path) != Resolve(at, item.name).tmp)
  }

  lemma {:induction false} EmptiedSparesOthers(at: Place, drops: seq<string>, path: Path)
    requires path.dir == DropDir(at) ==> path.name !in drops
    ensures Spares(Emptied(at, drops), path)
    decreases |drops|
  {
    if drops != [] {
      EmptiedSparesOthers(at, drops[..|drops| - 1], path);
      assert drops[|drops| - 1] in drops;
    }
  }

  lemma AtomicSpares(target: Target, data: Bytes, path: Path)
    requires target.tmp != Some(path) && target.file != Some(path)
    ensures Spares(Atomic(target, data), path)
  {
  }

  lemma SparesBoth(a: seq<Op>, b: seq<Op>, path: Path)
    requires Spares(a, path) && Spares(b, path)
    ensures Spares(a + b, path)
  {
    hide Touches;
  }

  /** Such a file stays as it is, wherever the set is cut short. */
  lemma UnrelatedStays(
    at: Place, env: Env, json: Codec<Current>, d: Disk, item: Item, listing: seq<string>, drops: seq<string>,
    path: Path)
    requires Unrelated(at, env, item, drops, path)
    ensures Get(DoAll(d, Plan(at, env, json, item, listing, drops)).files, path) == Get(d.files, path)
  {
    var own, stable, meta := Object(at, HashOf(env, item)), Stable(at, env, item), Meta(at);
    assert "current" <= stable.name && "current" <= Tmp(stable).name;
    assert "current" <= meta.name && "current" <= Tmp(meta).name;
    var record := json.encode(CurrentOf(at, env, item));
    hide Extension, Resolve, DoAll, Atomic, Cleanup, Emptied, HashOf, MimeOf, CurrentOf, Stable, Meta, Spares;
    AtomicSpares(Plain(own), item.data, path);
    AtomicSpares(Plain(stable), item.data, path);
    AtomicSpares(Plain(meta), record, path);
    CleanupSpares(at, listing, stable.name, path);
    EmptiedSparesOthers(at, drops, path);
    assert Spares(Named(at, item), path) by {
      if item.name != "" {
        AtomicSpares(Resolve(at, item.name), item.data, path);
      } else {
        NothingIsSpared(path);
      }
    }
    hide Tmp, Plain, Object, Named;
    var copy, stale, emptied := Atomic(Plain(stable), item.data), Cleanup(at, listing, stable.name), Emptied(at, drops);
    SparesBoth(copy, stale, path);
    SparesBoth(copy + stale, emptied, path);
    SparesBoth(copy + stale + emptied, Named(at, item), path);
    SparesBoth(Atomic(Plain(own), item.data), Middle(at, env, item, listing, drops), path);
    SparesBoth(Front(at, env, item, listing, drops), Back(at, env, json, item), path);
    SparedStays(d, Plan(at, env, json, item, listing, drops), path);
  }

  lemma NothingIsSpared(path: Path)
    ensures Spares([], path)
  {
  }

  // The extension of the stable copy.

  lemma DiffersAt(prefix: string, s: string, i: nat)
    requires i < |prefix| && i < |s| && prefix[i] != s[i]
    ensures !(prefix <= s)
  {
  }

  lemma NoImage(s: string)
    requires s != "" && s[0] != 'i'
    ensures !("image/png" <= s) && !("image/jpeg" <= s) && !("image/jpg" <= s) && !("image/gif" <= s)
            && !("image/webp" <= s)
  {
    DiffersAt("image/png", s, 0);
    DiffersAt("image/jpeg", s, 0);
    DiffersAt("image/jpg", s, 0);
    DiffersAt("image/gif", s, 0);
    DiffersAt("image/webp", s, 0);
  }

  lemma ImageExtensions(more: string)
    ensures Extension("image/png" + more) == ".png" && Extension("image/jpeg" + more) == ".jpg"
    ensures Extension("image/jpg" + more) == ".jpg" && Extension("image/gif" + more) == ".gif"
    ensures Extension("image/webp" + more) == ".webp"
  {
    NotPng("image/jpeg" + more);
    NotPng("image/jpg" + more);
    NotPng("image/gif" + more);
    NotPng("image/webp" + more);
    NotJpeg("image/gif" + more);
    NotJpeg("image/webp" + more);
    DiffersAt("image/gif", "image/webp" + more, 6);
  }

  lemma NotPng(s: string)
    requires |s| > 6 && s[6] != 'p'
    ensures !("image/png" <= s)
  {
    DiffersAt("image/png", s, 6);
  }

  lemma NotJpeg(s: string)
    requires |s| > 6 && s[6] != 'j'
    ensures !("image/jpeg" <= s) && !("image/jpg" <= s)
  {
    DiffersAt("image/jpeg", s, 6);
    DiffersAt("image/jpg", s, 6);
  }

  lemma OtherExtensions(more: string)
    ensures Extension("application/pdf" + more) == ".pdf" && Extension("application/zip" + more) == ".zip"
    ensures Extension("text/plain" + more) == ".txt" && Extension("text/html" + more) == ".html"
  {
    NoImage("application/pdf" + more);
    NoImage("application/zip" + more);
    NoImage("text/plain" + more);
    NoImage("text/html" + more);
    DiffersAt("application/pdf", "application/zip" + more, 12);
    DiffersAt("application/pdf", "text/plain" + more, 0);
    DiffersAt("application/zip", "text/plain" + more, 0);
    DiffersAt("application/pdf", "text/html" + more, 0);
    DiffersAt("application/zip", "text/html" + more, 0);
    DiffersAt("text/plain", "text/html" + more, 5);
  }

  /** The stable copy's extension follows the MIME type, whatever its parameters. */
  lemma ExtensionsAre(mime: string, more: string)
    requires mime in {"image/png", "image/jpeg", "image/jpg", "image/gif", "image/webp", "application/pdf",
                      "application/zip", "text/plain", "text/html"}
    ensures Extension(mime + more) ==
              match mime
              case "image/png" => ".png"
              case "image/jpeg" => ".jpg"
              case "image/jpg" => ".jpg"
              case "image/gif" => ".gif"
              case "image/webp" => ".webp"
              case "application/pdf" => ".pdf"
              case "application/zip" => ".zip"
              case "text/plain" => ".txt"
              case _ => ".html"
  {
    ImageExtensions(more);
    OtherExtensions(more);
    hide Extension;
  }

  /** And a type of another kind gets ".bin". */
  lemma UnknownExtension(mime: string)
    requires !("image/" <= mime) && !("application/" <= mime) && !("text/" <= mime)
    ensures Extension(mime) == ".bin"
  {
    StartsNot("image/", ["png", "jpeg", "jpg", "gif", "webp"], mime);
    StartsNot("application/", ["pdf", "zip"], mime);
    StartsNot("text/", ["plain", "html"], mime);
  }

  lemma StartsNot(start: string, rests: seq<string>, s: string)
    requires !(start <= s)
    ensures forall rest :: rest in rests ==> !(start + rest <= s)
  {
    forall rest | rest in rests
      ensures !(start + rest <= s)
    {
      assert (start + rest)[..|start|] == start;
    }
  }

  // What is shown.

  /**
   * After a completed set the store shows the item, in memory and after a restart: its bytes and name, its hash
   * and MIME type or those computed, and the path of the named copy or of the stable one.
   */
  lemma CompletedSetShows(
    at: Place, env: Env, json: Codec<Current>, d: Disk, item: Item, listing: seq<string>, drops: seq<string>)
    requires CodecLaw(json) && HashLaw(env) && LocalItem(env, item)
    requires Sane(at, env, json, d.files) && Harmless(at, env, item)
    requires Carried(d, Plan(at, env, json, item, listing, drops))
    ensures var files := DoAll(d, Plan(at, env, json, item, listing, drops)).files;
            var mime := if item.mime != "" then item.mime else env.mime(item.data);
            && Load(at, json, files).size == |item.data|
            && ViewOn(at, json, files).Some?
            && var shown := ViewOn(at, json, files).value;
            && shown.item.data == item.data && shown.item.name == item.name
            && shown.item.hash == env.hash(item.data)
            && shown.item.mime == mime
            && (item.name == "" ==> shown.path == Some(Path(at.clips, "current" + Extension(mime))))
            && (item.name != "" ==> shown.path == Resolve(at, item.name).file)
  {
    SetIsAtomic(at, env, json, d, item, listing, drops);
    var named := Resolve(at, item.name);
    assert item.name != "" ==> named.file.Some? by {
      if item.name != "" {
        assert Named(at, item)[1] in Plan(at, env, json, item, listing, drops);
      }
    }
    hide DoAll, Plan, Sane, Harmless, HashLaw, CodecLaw, Resolve, Extension, ViewOn;
  }
}
