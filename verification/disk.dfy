/**
 * The file system as the file clipboard uses it: files under directories, operations that a crash or
 * an error may cut short, and what becomes of a name joined to a directory.
 */
module Disks {
  import opened Basics
  import Text

  /** A file: the names of its directories from the root, and its own. */
  datatype Path = Path(dir: seq<string>, name: string)

  type Files = map<Path, Bytes>

  /** `Refuse` is an operation the file system does not accept: no such directory, or a directory in the way. */
  datatype Op = Write(path: Path, data: Bytes) | Rename(from: Path, to: Path) | Remove(path: Path) | Refuse

  /**
   * A disk that carries out `left` more operations.  The next one then fails, and if it is a write
   * it may leave anything in its file; nothing after it, or after a refusal, has any effect.
   */
  datatype Disk = Disk(files: Files, left: nat, torn: Option<Bytes>)

  function Done(files: Files, op: Op): Files {
    match op
    case Write(path, data) => files[path := data]
    case Rename(from, to) => if from in files then (files - {from})[to := files[from]] else files
    case Remove(path) => files - {path}
    case Refuse => files
  }

  function Do(d: Disk, op: Op): Disk {
    if d.left > 0 then
      if op.Refuse? then Disk(d.files, 0, None) else Disk(Done(d.files, op), d.left - 1, d.torn)
    else
      Disk(if op.Write? && d.torn.Some? then d.files[op.path := d.torn.value] else d.files, 0, None)
  }

  function DoAll(d: Disk, ops: seq<Op>): Disk {
    if ops == [] then d else Do(DoAll(d, ops[..|ops| - 1]), ops[|ops| - 1])
  }

  function Get(files: Files, path: Path): Option<Bytes> {
    if path in files then Some(files[path]) else None
  }

  lemma GetIs(files: Files, path: Path)
    ensures Get(files, path) == None <==> path !in files
  {
  }

  /** All of the operations take place. */
  predicate Carried(d: Disk, ops: seq<Op>) {
    |ops| <= d.left && Refuse !in ops
  }

  lemma {:induction false} DoBoth(d: Disk, a: seq<Op>, b: seq<Op>)
    ensures DoAll(d, a + b) == DoAll(DoAll(d, a), b)
    decreases |b|
  {
    if b == [] {
      assert a + b == a;
    } else {
      var front := b[..|b| - 1];
      assert (a + b)[..|a + b| - 1] == a + front;
      DoBoth(d, a, front);
    }
  }

  lemma {:induction false} LeftIs(d: Disk, ops: seq<Op>)
    ensures Carried(d, ops) ==> DoAll(d, ops).left == d.left - |ops| && DoAll(d, ops).torn == d.torn
    ensures !Carried(d, ops) ==> DoAll(d, ops).left == 0 && DoAll(d, ops).torn == None
    decreases |ops|
  {
    if ops != [] {
      LeftIs(d, ops[..|ops| - 1]);
      assert ops == ops[..|ops| - 1] + [ops[|ops| - 1]];
    }
  }

  lemma {:induction false} DeadStays(d: Disk, ops: seq<Op>)
    requires d.left == 0 && d.torn == None
    ensures DoAll(d, ops) == d
    decreases |ops|
  {
    if ops != [] {
      DeadStays(d, ops[..|ops| - 1]);
    }
  }

  lemma NothingDone(d: Disk)
    ensures DoAll(d, []) == d
  {
  }

  lemma OneMore(d: Disk, ops: seq<Op>, op: Op)
    ensures DoAll(d, ops + [op]) == Do(DoAll(d, ops), op)
  {
    assert (ops + [op])[..|ops|] == ops;
  }

  lemma StopsThere(d: Disk, a: seq<Op>, b: seq<Op>)
    requires !Carried(d, a)
    ensures DoAll(d, a + b) == DoAll(d, a)
  {
    LeftIs(d, a);
    DoBoth(d, a, b);
    DeadStays(DoAll(d, a), b);
  }

  lemma CarriedBoth(d: Disk, a: seq<Op>, b: seq<Op>)
    ensures Carried(d, a + b) <==> Carried(d, a) && Carried(DoAll(d, a), b)
    ensures b != [] ==> (Carried(d, a + b) <==> Carried(DoAll(d, a), b))
  {
    LeftIs(d, a);
  }

  predicate Touches(op: Op, path: Path) {
    match op
    case Write(p, _) => p == path
    case Rename(from, to) => from == path || to == path
    case Remove(p) => p == path
    case Refuse => false
  }

  ghost predicate Spares(ops: seq<Op>, path: Path) {
    forall i :: 0 <= i < |ops| ==> !Touches(ops[i], path)
  }

  lemma {:induction false} SparedStays(d: Disk, ops: seq<Op>, path: Path)
    requires Spares(ops, path)
    ensures Get(DoAll(d, ops).files, path) == Get(d.files, path)
    decreases |ops|
  {
    if ops != [] {
      SparedStays(d, ops[..|ops| - 1], path);
      assert !Touches(ops[|ops| - 1], path);
    }
  }

  // `write_atomic`.

  /** The two files of an atomic write, as far as the file system accepts them. */
  datatype Target = Target(tmp: Option<Path>, file: Option<Path>)

  function Tmp(path: Path): Path {
    path.(name := path.name + ".tmp")
  }

  function Plain(path: Path): Target {
    Target(Some(Tmp(path)), Some(path))
  }

  predicate Lands(target: Target) {
    target.tmp.Some? && target.file.Some?
  }

  function Atomic(target: Target, data: Bytes): seq<Op> {
    [if target.tmp.Some? then Write(target.tmp.value, data) else Refuse,
     if Lands(target) then Rename(target.tmp.value, target.file.value) else Refuse]
  }

  /**
   * An atomic write changes its file only if it is carried out to the end, and otherwise at most its
   * temporary file.
   */
  lemma AtomicWrites(d: Disk, target: Target, data: Bytes)
    requires target.file.Some? ==> target.tmp != target.file
    ensures var files := DoAll(d, Atomic(target, data)).files;
            && (target.file.Some? ==>
                  Get(files, target.file.value) ==
                    if 2 <= d.left && target.tmp.Some? then Some(data) else Get(d.files, target.file.value))
            && (2 <= d.left && Lands(target) ==> target.tmp.value !in files)
            && forall other :: Some(other) != target.file && Some(other) != target.tmp ==>
                 Get(files, other) == Get(d.files, other)
    ensures Carried(d, Atomic(target, data)) <==> 2 <= d.left && Lands(target)
  {
    var ops := Atomic(target, data);
    assert ops[..1] == [ops[0]] && [ops[0]][..0] == [];
    assert DoAll(d, [ops[0]]) == Do(d, ops[0]);
  }

  // Names joined to a directory.

  /** Where the clipboard lives, and which other directories there are; no directory is a symbolic link. */
  datatype Place = Place(clips: seq<string>, dirs: set<seq<string>>)

  function DropDir(at: Place): seq<string> {
    at.clips + ["drop"]
  }

  function ObjectsDir(at: Place): seq<string> {
    at.clips + ["objects"]
  }

  predicate Exists(at: Place, dir: seq<string>) {
    dir in at.dirs || dir <= at.clips || dir == DropDir(at) || dir == ObjectsDir(at)
  }

  function Segments(name: string): (r: seq<string>)
    ensures r != []
    decreases |name|
  {
    var i := Text.FirstIndex(name, '/');
    if i == |name| then [name] else [name[..i]] + Segments(name[i + 1..])
  }

  /** `Path::components` without its prefix: empty segments and single dots do not count. */
  function Components(segments: seq<string>): seq<string> {
    if segments == [] then [] else
    (if segments[0] == "" || segments[0] == "." then [] else [segments[0]]) + Components(segments[1..])
  }

  /** The directory reached from `from`, if every step of the way exists; the parent of the root is the root. */
  function Walk(at: Place, from: seq<string>, steps: seq<string>): Option<seq<string>>
    decreases |steps|
  {
    if steps == [] then Some(from)
    else if steps[0] == ".." then Walk(at, if from == [] then [] else from[..|from| - 1], steps[1..])
    else if Exists(at, from + [steps[0]]) then Walk(at, from + [steps[0]], steps[1..])
    else None
  }

  function FileIn(at: Place, dir: Option<seq<string>>, name: string): Option<Path> {
    if dir.None? || Exists(at, dir.value + [name]) then None else Some(Path(dir.value, name))
  }

  /**
   * What `write_atomic` meets under `drop_dir.join(name)`.  An absolute name replaces the directory.
   * The temporary file stands beside the last component if that is a proper name, and is ".tmp" in what
   * ".." leads to; a name that ends in a separator or in dots is no file to rename to.
   */
  function Resolve(at: Place, name: string): Target {
    if '\0' in name then Target(None, None) else
    var base := if "/" <= name then [] else DropDir(at);
    var segments := Segments(name);
    var steps := Components(segments);
    if steps == [] then
      Target(if base == [] then FileIn(at, Some([]), ".tmp") else FileIn(at, Some(at.clips), "drop.tmp"), None)
    else
      var n := |steps| - 1;
      if steps[n] == ".." then Target(FileIn(at, Walk(at, base, steps), ".tmp"), None) else
      var dir := Walk(at, base, steps[..n]);
      Target(
        FileIn(at, dir, steps[n] + ".tmp"),
        if segments[|segments| - 1] == steps[n] then FileIn(at, dir, steps[n]) else None)
  }

  predicate EndsInTmp(name: string) {
    4 <= |name| && name[|name| - 4..] == ".tmp"
  }

  lemma ResolvedIs(at: Place, name: string)
    ensures var r := Resolve(at, name);
            && (r.tmp.Some? ==> EndsInTmp(r.tmp.value.name))
            && (Lands(r) ==> r.tmp.value == Tmp(r.file.value))
            && (r.file.Some? ==> r.tmp != r.file && !Exists(at, r.file.value.dir + [r.file.value.name]))
  {
  }

  /** A name without separators stays in the directory it is joined to, or is no file at all. */
  lemma FlatNamesStay(at: Place, name: string)
    requires '/' !in name
    ensures Resolve(at, name).file.Some? ==> Resolve(at, name).file == Some(Path(DropDir(at), name))
  {
    assert Segments(name) == [name] && [name][1..] == [] && [name][..0] == [];
    assert Components([name]) == (if name == "" || name == "." then [] else [name]) + Components([]);
    assert "/" <= name ==> name[0] in name;
  }

  lemma SegmentsOfBoth(first: string, rest: string)
    requires '/' !in first
    ensures Segments(first + "/" + rest) == [first] + Segments(rest)
  {
    var s := first + "/" + rest;
    Text.FirstIndexIs(first, '/', rest);
    assert s[..|first|] == first && s[|first| + 1..] == rest;
  }

  predicate Proper(name: string) {
    name != "" && name != "." && name != ".." && '/' !in name && '\0' !in name
  }

  lemma ComponentsOfProper(a: string, steps: seq<string>)
    requires a != "" && a != "."
    ensures Components([a] + steps) == [a] + Components(steps)
  {
    assert ([a] + steps)[1..] == steps;
  }

  lemma WalkUp(at: Place, steps: seq<string>)
    ensures Walk(at, DropDir(at), [".."] + steps) == Walk(at, at.clips, steps)
  {
    assert DropDir(at)[..|DropDir(at)| - 1] == at.clips && ([".."] + steps)[1..] == steps;
  }

  lemma ResolvedVia(at: Place, name: string, steps: seq<string>, dir: seq<string>, last: string)
    requires '\0' !in name && Proper(last)
    requires Segments(name)[|Segments(name)| - 1] == last && Components(Segments(name)) == steps + [last]
    requires Walk(at, if "/" <= name then [] else DropDir(at), steps) == Some(dir)
    requires !Exists(at, dir + [last]) && !Exists(at, dir + [last + ".tmp"])
    ensures Resolve(at, name) == Plain(Path(dir, last))
  {
    hide Segments, Components, Walk, Exists;
    assert (steps + [last])[..|steps|] == steps;
  }

  /** One step up from the drop directory: a sibling of it, such as `current.json`. */
  lemma NameOfSibling(at: Place, name: string)
    requires Proper(name) && !Exists(at, at.clips + [name]) && !Exists(at, at.clips + [name + ".tmp"])
    ensures Resolve(at, "../" + name) == Plain(Path(at.clips, name))
  {
    var all := "../" + name;
    assert all == ".." + "/" + name && all[0] == '.' && '\0' !in all;
    SegmentsOfBoth("..", name);
    assert Segments(name) == [name] && Components([]) == [];
    ComponentsOfProper("..", [name]);
    ComponentsOfProper(name, []);
    WalkUp(at, []);
    hide Segments, Components, Walk, Exists;
    assert [name] + [] == [name] && [".."] + [] == [".."];
    assert Walk(at, at.clips, []) == Some(at.clips) by {
      NoStep(at, at.clips);
    }
    ResolvedVia(at, all, [".."], at.clips, name);
  }

  lemma NoStep(at: Place, dir: seq<string>)
    ensures Walk(at, dir, []) == Some(dir)
  {
  }

  lemma WalkToObjects(at: Place)
    ensures Walk(at, DropDir(at), ["..", "objects"]) == Some(ObjectsDir(at))
  {
    WalkUp(at, ["objects"]);
    assert [".."] + ["objects"] == ["..", "objects"] && ["objects"][1..] == [];
  }

  lemma SegmentsOfOne(name: string)
    requires '/' !in name
    ensures Segments(name) == [name]
  {
  }

  lemma SegmentsOfThree(a: string, b: string, name: string)
    requires '/' !in a && '/' !in b && '/' !in name
    ensures Segments(a + "/" + (b + "/" + name)) == [a, b, name]
  {
    hide Segments;
    SegmentsOfOne(name);
    SegmentsOfBoth(b, name);
    SegmentsOfBoth(a, b + "/" + name);
    assert [b] + [name] == [b, name] && [a] + [b, name] == [a, b, name];
  }

  lemma ThreeComponents(a: string, b: string, name: string)
    requires a != "" && a != "." && b != "" && b != "." && name != "" && name != "."
    ensures Components([a, b, name]) == [a, b, name]
  {
    assert [a, b, name][1..] == [b, name] && [b, name][1..] == [name] && [name][1..] == [];
    assert Components([name]) == [name] + Components([]);
    assert Components([b, name]) == [b] + Components([name]);
  }

  /** Through the sibling that holds the objects. */
  lemma NameOfObject(at: Place, name: string)
    requires Proper(name) && !Exists(at, ObjectsDir(at) + [name]) && !Exists(at, ObjectsDir(at) + [name + ".tmp"])
    ensures Resolve(at, "../objects/" + name) == Plain(Path(ObjectsDir(at), name))
  {
    var all := "../objects/" + name;
    hide Segments, Components, Walk, Exists;
    SegmentsOfThree("..", "objects", name);
    ThreeComponents("..", "objects", name);
    WalkToObjects(at);
    assert all == ".." + "/" + ("objects" + "/" + name) && all[0] == '.';
    assert ["..", "objects", name] == ["..", "objects"] + [name];
    ResolvedVia(at, all, ["..", "objects"], ObjectsDir(at), name);
  }

  /** An ordinary name is that file in the drop directory, unless there is a directory in the way. */
  lemma ProperNamesLand(at: Place, name: string)
    requires Proper(name) && !Exists(at, DropDir(at) + [name]) && !Exists(at, DropDir(at) + [name + ".tmp"])
    ensures Resolve(at, name) == Plain(Path(DropDir(at), name))
  {
    assert Segments(name) == [name] && Components([]) == [];
    assert name[0] in name;
    ComponentsOfProper(name, []);
    NoStep(at, DropDir(at));
    hide Segments, Components, Walk, Exists;
    assert [name] + [] == [name] == [] + [name];
    ResolvedVia(at, name, [], DropDir(at), name);
  }

  /** An absolute name leaves the drop directory: the copy goes to the root. */
  lemma AbsoluteNamesLeave(at: Place, name: string)
    requires Proper(name) && !Exists(at, [name]) && !Exists(at, [name + ".tmp"])
    ensures Resolve(at, "/" + name) == Plain(Path([], name))
  {
    var all := "/" + name;
    assert all == "" + "/" + name && "/" <= all;
    SegmentsOfBoth("", name);
    assert Segments(name) == [name] && ["", name][1..] == [name] && Components([]) == [];
    assert Components(["", name]) == Components([name]);
    ComponentsOfProper(name, []);
    NoStep(at, []);
    hide Segments, Components, Walk, Exists;
    assert [""] + [name] == ["", name] && [name] + [] == [name] == [] + [name];
    assert [] + [name] == [name] && [] + [name + ".tmp"] == [name + ".tmp"];
    ResolvedVia(at, all, [], [], name);
  }

  /** A name through a directory that is not there is not written. */
  lemma MissingDirectoryRefuses(at: Place, dir: string, name: string)
    requires Proper(dir) && Proper(name) && !Exists(at, DropDir(at) + [dir])
    ensures Resolve(at, dir + "/" + name) == Target(None, None)
  {
    var all := dir + "/" + name;
    SegmentsOfBoth(dir, name);
    assert Segments(name) == [name] && Components([]) == [] && all[0] == dir[0] && dir[0] in dir;
    ComponentsOfProper(name, []);
    ComponentsOfProper(dir, [name]);
    hide Segments, Components, Exists;
    assert [dir] + [name] == [dir, name] && [name] + [] == [name];
    assert [dir, name][..1] == [dir];
  }

  lemma {:induction false} LastSegment(name: string, last: string)
    requires '/' !in last
    ensures Segments(last) == [last]
    ensures var all := Segments(name + "/" + last); all[|all| - 1] == last
    decreases |name|
  {
    if '/' in name {
      var i := Text.FirstIndex(name, '/');
      var rest := name[i + 1..];
      assert name + "/" + last == name[..i] + "/" + (rest + "/" + last);
      LastSegment(rest, last);
      SegmentsOfBoth(name[..i], rest + "/" + last);
    } else {
      SegmentsOfBoth(name, last);
    }
  }

  /** No name that is empty or ends in a separator, a dot or two is a file. */
  lemma DotsAreNoFiles(at: Place, name: string, last: string)
    requires last in {"", ".", ".."}
    ensures Resolve(at, last).file.None? && Resolve(at, name + "/" + last).file.None?
  {
    LastSegment(name, last);
    NoFileEndsSo(at, last, last);
    NoFileEndsSo(at, name + "/" + last, last);
  }

  lemma NoFileEndsSo(at: Place, name: string, last: string)
    requires last in {"", ".", ".."} && Segments(name)[|Segments(name)| - 1] == last
    ensures Resolve(at, name).file.None?
  {
    var steps := Components(Segments(name));
    ComponentsAreNamed(Segments(name));
    assert steps != [] ==> steps[|steps| - 1] in steps;
    hide Segments, Components, Walk, Exists;
  }

  lemma {:induction false} ComponentsAreNamed(segments: seq<string>)
    ensures forall step :: step in Components(segments) ==> step != "" && step != "."
  {
    if segments != [] {
      ComponentsAreNamed(segments[1..]);
    }
  }
}
