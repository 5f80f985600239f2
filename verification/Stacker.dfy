/**
 The file stacker. A job message opens a new directory under every target in use; from then
 on every image of every stream is filed in a directory of its stream under each of them,
 numbered from 1. One message at a time: the source takes no lock around its directories and
 counters.
 */
module Stacker {
  import opened Text
  import opened Wrappers
  import opened Packets
  import LabelName

  /** A path, component by component. */
  type Path = seq<string>

  datatype Content = Info(job: Message) | Image(data: seq<nat>)

  datatype Target = Target(path: Path, inUse: bool, imageOnly: bool)

  /** Incomplete: date, height, width or standard is missing. */
  datatype Message = Job(date: string, norm: string, width: int, height: int) | Incomplete

  /** The file system, the directories now filed into, and the number of images of each stream. */
  datatype Store = Store(dirs: set<Path>, files: map<Path, Content>, active: seq<Path>, counter: map<int, nat>)

  /** The targets, and the directory name of every stream. */
  datatype Config = Config(targets: seq<Target>, streams: map<int, string>)

  const LEVEL2_TXT := "level2.txt"

  /** int division of C++ truncates. */
  function Tenth(n: int): int { if n < 0 then -((-n) / 10) else n / 10 }

  /** The standard a job is filed under, and its fallback. */
  function FiledNorm(msg: Message): string
    requires msg.Job?
  {
    if msg.norm == "" then "Unknown" + Print(Tenth(msg.width)) + "x" + Print(Tenth(msg.height)) else msg.norm
  }

  /** The directory of a job, relative to its target. */
  function RelDir(msg: Message): Path
    requires msg.Job?
  {
    [LabelName.Take8(msg.date), msg.date + "_" + FiledNorm(msg)]
  }

  function ImageName(camera: string, n: nat): string {
    camera + "_" + Decimal(n) + ".jpg"
  }

  // ----- The file system -----

  predicate Exists(s: Store, p: Path) { p in s.dirs || p in s.files }

  function Ancestors(p: Path): set<Path> { set k | 0 <= k <= |p| :: p[..k] }

  /** create_directories fails below a file. */
  predicate Blocked(s: Store, p: Path) { exists k :: 0 <= k <= |p| && p[..k] in s.files }

  ghost predicate Tree(s: Store) {
    && (forall d <- s.dirs, k :: 0 <= k <= |d| ==> d[..k] in s.dirs)
    && (forall f <- s.files, k :: 0 <= k < |f| ==> f[..k] in s.dirs)
  }

  // ----- Messages -----

  /** One target of a job message; refused holds the directories the system will not create. */
  function OpenTarget(s: Store, target: Target, msg: Message, refused: set<Path>): Store
    requires msg.Job?
  {
    var dest := target.path + RelDir(msg);
    if !target.inUse || Exists(s, dest) || dest in refused || Blocked(s, dest) then s
    else
      s.(dirs := s.dirs + Ancestors(dest), active := s.active + [dest],
         files := if target.imageOnly then s.files else s.files[dest + [LEVEL2_TXT] := Info(msg)])
  }

  function OpenTargets(s: Store, targets: seq<Target>, msg: Message, refused: set<Path>): Store
    requires msg.Job?
  {
    if targets == [] then s
    else OpenTarget(OpenTargets(s, targets[..|targets| - 1], msg, refused), targets[|targets| - 1], msg, refused)
  }

  function Dispatched(c: Config, s: Store, msg: Message, refused: set<Path>): Store {
    var cleared := s.(active := []);
    if msg.Incomplete? then cleared
    else
      var t := OpenTargets(cleared, c.targets, msg, refused);
      t.(counter := map id | id in t.counter :: 0)
  }

  /** The paths an image is written to. */
  function Places(active: seq<Path>, dirname: string, name: string): set<Path> {
    set d | d in active :: d + [dirname, name]
  }

  function FileImage(s: Store, d: Path, dirname: string, name: string, data: seq<nat>): Store {
    var dir := d + [dirname];
    var t := if Exists(s, dir) then s else s.(dirs := s.dirs + Ancestors(dir));
    if dir in t.dirs then t.(files := t.files[dir + [name] := Image(data)]) else t
  }

  function FileAll(s: Store, ds: seq<Path>, dirname: string, name: string, data: seq<nat>): Store {
    if ds == [] then s
    else FileImage(FileAll(s, ds[..|ds| - 1], dirname, name, data), ds[|ds| - 1], dirname, name, data)
  }

  function Filed(c: Config, s: Store, id: int, camera: string, data: seq<nat>): Store
    requires id in c.streams && id in s.counter
  {
    var n := s.counter[id] + 1;
    FileAll(s, s.active, c.streams[id], ImageName(camera, n), data).(counter := s.counter[id := n])
  }

  // ----- The object -----

  class FileStacker {
    const config: Config
    var dirs: set<Path>
    var files: map<Path, Content>
    var backupDirPath: seq<Path>
    var streamCounter: map<int, nat>

    constructor (config: Config, dirs: set<Path>, files: map<Path, Content>)
      ensures this.config == config
      ensures State() == Store(dirs, files, [], map id | id in config.streams :: 0)
    {
      this.config := config;
      this.dirs, this.files, backupDirPath := dirs, files, [];
      streamCounter := map id | id in config.streams :: 0;
    }

    function State(): Store
      reads this
    {
      Store(dirs, files, backupDirPath, streamCounter)
    }

    method Level2Dispatch(msg: Message, refused: set<Path>)
      modifies this
      ensures State() == Dispatched(config, old(State()), msg, refused)
    {
      backupDirPath := [];
      if msg.Job? {
        ghost var cleared := State();
        for n := 0 to |config.targets|
          invariant State() == OpenTargets(cleared, config.targets[..n], msg, refused)
        {
          assert config.targets[..n + 1][..n] == config.targets[..n];
          var target := config.targets[n];
          var dest := target.path + RelDir(msg);
          if target.inUse && !Exists(State(), dest) && dest !in refused && !Blocked(State(), dest) {
            dirs := dirs + Ancestors(dest);
            backupDirPath := backupDirPath + [dest];
            if !target.imageOnly {
              files := files[dest + [LEVEL2_TXT] := Info(msg)];
            }
          }
        }
        assert config.targets[..|config.targets|] == config.targets;
        ResetCounters();
      }
    }

    method ResetCounters()
      modifies this`streamCounter
      ensures streamCounter == map id | id in old(streamCounter) :: 0
    {
      var todo: set<int> := streamCounter.Keys;
      while todo != {}
        invariant todo <= streamCounter.Keys == old(streamCounter.Keys)
        invariant forall id: int {:trigger streamCounter[id]} :: id in streamCounter && id !in todo ==>
            streamCounter[id] == 0
        decreases todo
      {
        assert (forall id: int :: id !in todo) ==> todo == {};
        var id: int :| id in todo;
        streamCounter := streamCounter[id := 0];
        todo := todo - {id};
      }
      ghost var zeros: map<int, nat> := map id | id in old(streamCounter) :: 0;
      assert zeros.Keys == streamCounter.Keys;
      assert forall id: int {:trigger streamCounter[id]} :: id in streamCounter ==> streamCounter[id] == zeros[id];
    }

    method ImageStackerTask(id: int, camera: string, data: seq<nat>)
      requires id in config.streams && id in streamCounter
      modifies this
      ensures State() == Filed(config, old(State()), id, camera, data)
    {
      var dirname := config.streams[id];
      ghost var before := State();
      streamCounter := streamCounter[id := streamCounter[id] + 1];
      var name := ImageName(camera, streamCounter[id]);
      for n := 0 to |backupDirPath|
        invariant backupDirPath == before.active && streamCounter == before.counter[id := before.counter[id] + 1]
        invariant State() == FileAll(before, before.active[..n], dirname, name, data).(counter := streamCounter)
        invariant FileAll(before, before.active[..n], dirname, name, data).active == before.active
      {
        assert before.active[..n + 1][..n] == before.active[..n];
        var dir := backupDirPath[n] + [dirname];
        if !Exists(State(), dir) {
          dirs := dirs + Ancestors(dir);
        }
        if dir in dirs {
          files := files[dir + [name] := Image(data)];
        }
      }
      assert before.active[..|before.active|] == before.active;
    }
  }

  // ----- Names of images -----

  /** The number of an image can be read off its name. */
  lemma {:induction false} ImageNameTells(a: string, m: nat, b: string, n: nat)
    requires ImageName(a, m) == ImageName(b, n)
    ensures m == n && a == b
  {
    DecimalFact(m);
    DecimalFact(n);
    var s, t := a + "_" + Decimal(m), b + "_" + Decimal(n);
    assert ImageName(a, m)[..|s|] == s && ImageName(b, n)[..|t|] == t;
    assert |s| == |t| && s == t;
    LastSeparator(a, b, Decimal(m), Decimal(n), '_');
  }

  lemma ImageNameDotted(camera: string, n: nat)
    ensures '.' in ImageName(camera, n) && ImageName(camera, n) != LEVEL2_TXT
  {
    var s := camera + "_" + Decimal(n);
    assert ImageName(camera, n)[|s|] == '.';
    assert ImageName(camera, n)[|s| + 3] == 'g' && |ImageName(camera, n)| == |s| + 4;
  }

  // ----- The invariant -----

  /** Streams have directories of their own, and directory names have no dot. */
  ghost predicate GoodConfig(c: Config) {
    && (forall i, j :: i in c.streams && j in c.streams && i != j ==> c.streams[i] != c.streams[j])
    && (forall i :: i in c.streams ==> '.' !in c.streams[i])
  }

  datatype Received = Received(camera: string, data: seq<nat>)

  /** The store and, per stream, the images received since the last complete job message. */
  datatype History = History(store: Store, since: map<int, seq<Received>>)

  function NameOf(images: seq<Received>, k: nat): string
    requires k < |images|
  {
    ImageName(images[k].camera, k + 1)
  }

  /** Directly below d there are only files with a dot in their name. */
  ghost predicate Dotted(files: map<Path, Content>, d: Path) {
    forall y: string {:trigger d + [y]} :: d + [y] in files ==> '.' in y
  }

  /** Under d and the stream's name there is exactly one file per image, numbered from 1 without gaps. */
  ghost predicate Complete(files: map<Path, Content>, d: Path, dirname: string, images: seq<Received>) {
    && (forall k: nat {:trigger NameOf(images, k)} :: k < |images| ==>
          d + [dirname, NameOf(images, k)] in files && files[d + [dirname, NameOf(images, k)]] == Image(images[k].data))
    && (forall y: string {:trigger d + [dirname, y]} :: d + [dirname, y] in files && y != LEVEL2_TXT ==>
          exists k: nat {:trigger NameOf(images, k)} :: k < |images| && y == NameOf(images, k))
  }

  ghost predicate Holds(c: Config, s: Store, d: Path, since: map<int, seq<Received>>)
    requires since.Keys == c.streams.Keys
  {
    && d in s.dirs && Dotted(s.files, d)
    && forall id {:trigger c.streams[id]} :: id in c.streams ==> Complete(s.files, d, c.streams[id], since[id])
  }

  ghost predicate Inv(c: Config, h: History) {
    && Tree(h.store) && Distinct(h.store.active)
    && h.since.Keys == c.streams.Keys == h.store.counter.Keys
    && (forall id :: id in c.streams ==> h.store.counter[id] == |h.since[id]|)
    && (forall d {:trigger Holds(c, h.store, d, h.since)} :: d in h.store.active ==> Holds(c, h.store, d, h.since))
  }

  ghost predicate Kept(before: map<Path, Content>, after: map<Path, Content>) {
    forall f :: f in before ==> f in after && after[f] == before[f]
  }

  // ----- A job message -----

  lemma PathSplit(d: Path, e: Path, x: string, y: string)
    ensures d + [x] == e + [y] ==> d == e && x == y
  {
    if d + [x] == e + [y] {
      assert (d + [x])[..|d|] == d && (e + [y])[..|e|] == e;
      assert (d + [x])[|d|] == x && (e + [y])[|e|] == y;
    }
  }

  lemma PathSplit2(d: Path, e: Path, x: string, y: string, u: string, v: string)
    ensures d + [x, y] == e + [u, v] ==> d == e && x == u && y == v
  {
    assert d + [x, y] == (d + [x]) + [y] && e + [u, v] == (e + [u]) + [v];
    PathSplit(d + [x], e + [u], y, v);
    PathSplit(d, e, x, u);
  }

  function Nothing(c: Config): map<int, seq<Received>> { map id | id in c.streams :: [] }

  lemma OpenTargetTree(s: Store, target: Target, msg: Message, refused: set<Path>)
    requires msg.Job? && Tree(s)
    ensures var t := OpenTarget(s, target, msg, refused); Tree(t) && Kept(s.files, t.files) && s.dirs <= t.dirs
    ensures forall f :: f in OpenTarget(s, target, msg, refused).files && f !in s.files ==>
              f == target.path + RelDir(msg) + [LEVEL2_TXT]
  {
    var dest := target.path + RelDir(msg);
    var t := OpenTarget(s, target, msg, refused);
    var info := dest + [LEVEL2_TXT];
    if t != s {
      assert dest == dest[..|dest|];
      assert info[..|dest|] == dest;
      assert info !in s.files;
      forall d, k | d in t.dirs && 0 <= k <= |d| ensures d[..k] in t.dirs {
        if d !in s.dirs {
          var n :| 0 <= n <= |dest| && d == dest[..n];
          assert d[..k] == dest[..k];
        }
      }
      forall f, k | f in t.files && 0 <= k < |f| ensures f[..k] in t.dirs {
        if f !in s.files {
          assert f == info && info[..k] == dest[..k];
        }
      }
    }
  }

  /** Nothing lies below a path that is no directory. */
  lemma NothingBelow(s: Store, d: Path, rest: Path)
    requires Tree(s) && d !in s.dirs && rest != []
    ensures d + rest !in s.files
  {
    assert (d + rest)[..|d|] == d;
  }

  lemma OpenTargetHolds(c: Config, s: Store, target: Target, msg: Message, refused: set<Path>, d: Path)
    requires msg.Job? && Tree(s) && GoodConfig(c)
    requires d in s.active ==> Holds(c, s, d, Nothing(c))
    requires d in OpenTarget(s, target, msg, refused).active
    ensures Holds(c, OpenTarget(s, target, msg, refused), d, Nothing(c))
  {
    var dest := target.path + RelDir(msg);
    var t := OpenTarget(s, target, msg, refused);
    OpenTargetTree(s, target, msg, refused);
    assert dest == dest[..|dest|];
    forall y: string | d + [y] in t.files ensures '.' in y {
      PathSplit(d, dest, y, LEVEL2_TXT);
      assert LEVEL2_TXT[6] == '.';
      if d !in s.active {
        NothingBelow(s, d, [y]);
      }
    }
    forall id | id in c.streams ensures Complete(t.files, d, c.streams[id], []) {
      var dirname := c.streams[id];
      if d in s.active {
        assert Complete(s.files, d, dirname, Nothing(c)[id]);
      }
      forall y: string | d + [dirname, y] in t.files ensures y == LEVEL2_TXT {
        assert d + [dirname, y] == (d + [dirname]) + [y];
        PathSplit(d + [dirname], dest, y, LEVEL2_TXT);
        if d !in s.active {
          NothingBelow(s, d, [dirname, y]);
        }
      }
    }
  }

  lemma {:induction false} OpenTargetsInv(c: Config, s: Store, targets: seq<Target>, msg: Message, refused: set<Path>)
    requires msg.Job? && Tree(s) && GoodConfig(c) && s.active == []
    ensures var t := OpenTargets(s, targets, msg, refused);
            && Tree(t) && Distinct(t.active) && t.counter == s.counter && Kept(s.files, t.files) && s.dirs <= t.dirs
            && (forall d {:trigger Holds(c, t, d, Nothing(c))} :: d in t.active ==> Holds(c, t, d, Nothing(c)))
            && (forall d :: d in t.active ==> d !in s.dirs && d !in s.files)
  {
    if targets != [] {
      var before, target := targets[..|targets| - 1], targets[|targets| - 1];
      OpenTargetsInv(c, s, before, msg, refused);
      var m := OpenTargets(s, before, msg, refused);
      OpenTargetTree(m, target, msg, refused);
      var t := OpenTarget(m, target, msg, refused);
      forall d | d in t.active ensures Holds(c, t, d, Nothing(c)) {
        assert d in m.active ==> Holds(c, m, d, Nothing(c));
        OpenTargetHolds(c, m, target, msg, refused, d);
      }
      forall d | d in m.active ensures d in m.dirs {
        assert Holds(c, m, d, Nothing(c));
      }
    }
  }

  // ----- Which directories a job message opens -----

  function Dest(target: Target, msg: Message): Path
    requires msg.Job?
  {
    target.path + RelDir(msg)
  }

  /**
   The n-th target opens its directory: it is in use, the system does not refuse, nothing was there
   and no file on the way to it, and no target before it has made that directory, or put its
   level2.txt on the way to it.
   */
  ghost predicate Opens(s: Store, targets: seq<Target>, msg: Message, refused: set<Path>, n: nat)
    requires msg.Job? && n < |targets|
    decreases n
  {
    var d := Dest(targets[n], msg);
    && targets[n].inUse && d !in refused && d !in s.dirs && (forall f <- s.files :: !(f <= d))
    && forall m: nat {:trigger Opens(s, targets, msg, refused, m)} :: m < n && Opens(s, targets, msg, refused, m) ==>
         var e := Dest(targets[m], msg);
         !(d <= e) && (targets[m].imageOnly || !(e + ["level2.txt"] <= d))
  }

  /** d is the directory of one of the first k targets, which opens it. */
  ghost predicate Opened(s: Store, targets: seq<Target>, msg: Message, refused: set<Path>, k: nat, d: Path)
    requires msg.Job? && k <= |targets|
  {
    exists n: nat :: n < k && Opens(s, targets, msg, refused, n) && d == Dest(targets[n], msg)
  }

  ghost predicate OnTheWay(s: Store, targets: seq<Target>, msg: Message, refused: set<Path>, k: nat, p: Path)
    requires msg.Job? && k <= |targets|
  {
    exists n: nat :: n < k && Opens(s, targets, msg, refused, n) && p <= Dest(targets[n], msg)
  }

  /** f is the level2.txt that one of the first k targets writes. */
  ghost predicate Noted(s: Store, targets: seq<Target>, msg: Message, refused: set<Path>, k: nat, f: Path)
    requires msg.Job? && k <= |targets|
  {
    exists n: nat :: n < k && Opens(s, targets, msg, refused, n) && !targets[n].imageOnly
      && f == Dest(targets[n], msg) + ["level2.txt"]
  }

  /** What p is after the first k targets: an active directory, a directory, a file. */
  ghost predicate OpenedAt(s: Store, targets: seq<Target>, msg: Message, refused: set<Path>, k: nat, t: Store, p: Path)
    requires msg.Job? && k <= |targets|
  {
    && (p in t.active <==> p in s.active || Opened(s, targets, msg, refused, k, p))
    && (p in t.dirs <==> p in s.dirs || OnTheWay(s, targets, msg, refused, k, p))
    && (p in t.files <==> p in s.files || Noted(s, targets, msg, refused, k, p))
    && (p in t.files ==>
          if Noted(s, targets, msg, refused, k, p) then t.files[p] == Info(msg) else t.files[p] == s.files[p])
  }

  /** Directories, files and active directories after the first k targets, told from those before. */
  ghost predicate OpenedAll(s: Store, targets: seq<Target>, msg: Message, refused: set<Path>, k: nat, t: Store)
    requires msg.Job? && k <= |targets|
  {
    forall p :: OpenedAt(s, targets, msg, refused, k, t, p)
  }

  lemma AncestorsFact(p: Path, q: Path)
    ensures q in Ancestors(p) <==> q <= p
  {
    if q <= p {
      assert q == p[..|q|];
    }
  }

  lemma BlockedFact(s: Store, p: Path)
    ensures Blocked(s, p) <==> exists f <- s.files :: f <= p
  {
    if f :| f in s.files && f <= p {
      assert f == p[..|f|];
    }
  }

  /** What the targets before have made is not in the way of one that opens. */
  lemma OpensClear(s: Store, targets: seq<Target>, msg: Message, refused: set<Path>, k: nat)
    requires msg.Job? && k < |targets| && Opens(s, targets, msg, refused, k)
    ensures !OnTheWay(s, targets, msg, refused, k, Dest(targets[k], msg))
    ensures forall f :: f in s.files || Noted(s, targets, msg, refused, k, f) ==> !(f <= Dest(targets[k], msg))
  {
  }

  lemma ClearOpens(s: Store, targets: seq<Target>, msg: Message, refused: set<Path>, k: nat)
    requires msg.Job? && k < |targets|
    requires var d := Dest(targets[k], msg);
             && targets[k].inUse && d !in refused && d !in s.dirs && !OnTheWay(s, targets, msg, refused, k, d)
             && forall f :: f in s.files || Noted(s, targets, msg, refused, k, f) ==> !(f <= d)
    ensures Opens(s, targets, msg, refused, k)
  {
    var d := Dest(targets[k], msg);
    forall m: nat | m < k && Opens(s, targets, msg, refused, m)
      ensures var e := Dest(targets[m], msg);
              !(d <= e) && (targets[m].imageOnly || !(e + ["level2.txt"] <= d))
    {
      assert d <= Dest(targets[m], msg) ==> OnTheWay(s, targets, msg, refused, k, d);
      assert !targets[m].imageOnly ==> Noted(s, targets, msg, refused, k, Dest(targets[m], msg) + ["level2.txt"]);
    }
  }

  /** A target opens exactly when OpenTarget finds the way free. */
  lemma OpensNext(s: Store, targets: seq<Target>, msg: Message, refused: set<Path>, k: nat, t: Store)
    requires msg.Job? && k < |targets| && OpenedAll(s, targets, msg, refused, k, t)
    ensures var d := Dest(targets[k], msg);
            Opens(s, targets, msg, refused, k) <==>
              targets[k].inUse && !Exists(t, d) && d !in refused && !Blocked(t, d)
  {
    var d := Dest(targets[k], msg);
    BlockedFact(t, d);
    assert OpenedAt(s, targets, msg, refused, k, t, d);
    forall f ensures f in t.files <==> f in s.files || Noted(s, targets, msg, refused, k, f) {
      assert OpenedAt(s, targets, msg, refused, k, t, f);
    }
    if Opens(s, targets, msg, refused, k) {
      OpensClear(s, targets, msg, refused, k);
      hide Opens, OnTheWay, Noted, Opened, RelDir, Blocked;
      assert d !in t.dirs && forall f :: f in t.files ==> !(f <= d);
    } else {
      hide Opens, OnTheWay, Noted, Opened, RelDir, Blocked;
      if targets[k].inUse && !Exists(t, d) && d !in refused && !Blocked(t, d) {
        ClearOpens(s, targets, msg, refused, k);
      }
    }
  }

  lemma OpenedNext(s: Store, targets: seq<Target>, msg: Message, refused: set<Path>, k: nat, p: Path)
    requires msg.Job? && k < |targets|
    ensures var opens, d := Opens(s, targets, msg, refused, k), Dest(targets[k], msg);
            && (Opened(s, targets, msg, refused, k + 1, p) <==>
                  Opened(s, targets, msg, refused, k, p) || (opens && p == d))
            && (OnTheWay(s, targets, msg, refused, k + 1, p) <==>
                  OnTheWay(s, targets, msg, refused, k, p) || (opens && p <= d))
            && (Noted(s, targets, msg, refused, k + 1, p) <==>
                  Noted(s, targets, msg, refused, k, p)
                  || (opens && !targets[k].imageOnly && p == d + ["level2.txt"]))
  {
    hide Opens, RelDir, Dest;
    if n: nat :| n < k && Opens(s, targets, msg, refused, n) && p <= Dest(targets[n], msg) {
      assert n < k + 1;
    }
  }

  lemma OneMore(s: Store, targets: seq<Target>, msg: Message, refused: set<Path>, k: nat, m: Store)
    requires msg.Job? && k < |targets| && OpenedAll(s, targets, msg, refused, k, m)
    ensures OpenedAll(s, targets, msg, refused, k + 1, OpenTarget(m, targets[k], msg, refused))
  {
    var d, target := Dest(targets[k], msg), targets[k];
    var t := OpenTarget(m, target, msg, refused);
    OpensNext(s, targets, msg, refused, k, m);
    assert LEVEL2_TXT == "level2.txt";
    var opens := Opens(s, targets, msg, refused, k);
    var note := d + ["level2.txt"];
    assert t.active == if opens then m.active + [d] else m.active;
    assert t.dirs == if opens then m.dirs + Ancestors(d) else m.dirs;
    assert t.files == if opens && !target.imageOnly then m.files[note := Info(msg)] else m.files;
    hide Opens, Opened, OnTheWay, Noted, OpenTarget, Blocked, Ancestors, RelDir, Exists;
    var next := k + 1;
    forall p ensures OpenedAt(s, targets, msg, refused, next, t, p) {
      assert OpenedAt(s, targets, msg, refused, k, m, p);
      OpenedNext(s, targets, msg, refused, k, p);
      AncestorsFact(d, p);
    }
  }

  lemma {:induction false} OpenTargetsExactly(s: Store, targets: seq<Target>, msg: Message, refused: set<Path>,
                                              k: nat)
    requires msg.Job? && k <= |targets|
    ensures OpenedAll(s, targets, msg, refused, k, OpenTargets(s, targets[..k], msg, refused))
  {
    if k > 0 {
      OpenTargetsExactly(s, targets, msg, refused, k - 1);
      assert targets[..k][..k - 1] == targets[..k - 1];
      OneMore(s, targets, msg, refused, k - 1, OpenTargets(s, targets[..k - 1], msg, refused));
    }
  }

  /** Below a target in use, at the job's directory. */
  ghost predicate TargetOf(targets: seq<Target>, rel: Path, d: Path) {
    exists target <- targets :: target.inUse && d == target.path + rel
  }

  /**
   What a complete job message does to the store, over any configuration and file tree: which
   directories are filed into, created, and given a level2.txt, each exactly; and counting starts
   again.
   */
  lemma {:induction false} DispatchOpens(c: Config, s: Store, msg: Message, refused: set<Path>)
    requires msg.Job?
    ensures var t := Dispatched(c, s, msg, refused);
            && OpenedAll(s.(active := []), c.targets, msg, refused, |c.targets|, t)
            && t.counter.Keys == s.counter.Keys && forall id <- t.counter :: t.counter[id] == 0
  {
    var cleared, k := s.(active := []), |c.targets|;
    OpenTargetsExactly(cleared, c.targets, msg, refused, k);
    assert c.targets[..k] == c.targets;
    OpenTargetsCounter(cleared, c.targets, msg, refused);
    var m, t := OpenTargets(cleared, c.targets, msg, refused), Dispatched(c, s, msg, refused);
    hide Opens, Opened, OnTheWay, Noted, OpenTargets;
    forall p ensures OpenedAt(cleared, c.targets, msg, refused, k, t, p) {
      assert OpenedAt(cleared, c.targets, msg, refused, k, m, p);
    }
  }

  lemma {:induction false} OpenTargetsCounter(s: Store, targets: seq<Target>, msg: Message, refused: set<Path>)
    requires msg.Job?
    ensures OpenTargets(s, targets, msg, refused).counter == s.counter
  {
    if targets != [] {
      OpenTargetsCounter(s, targets[..|targets| - 1], msg, refused);
    }
  }

  /** A job message makes the stacker file into the job's directory below targets in use, and nowhere else. */
  lemma DispatchedWhere(c: Config, s: Store, msg: Message, refused: set<Path>)
    requires msg.Job?
    ensures forall d :: d in Dispatched(c, s, msg, refused).active ==> TargetOf(c.targets, RelDir(msg), d)
  {
    DispatchOpens(c, s, msg, refused);
    forall d | d in Dispatched(c, s, msg, refused).active ensures TargetOf(c.targets, RelDir(msg), d) {
      assert OpenedAt(s.(active := []), c.targets, msg, refused, |c.targets|, Dispatched(c, s, msg, refused), d);
    }
  }

  /** No target lies below another one that is in use. */
  ghost predicate Apart(targets: seq<Target>) {
    forall a, b :: a in targets && b in targets && a.inUse && b.inUse ==> !(a.path < b.path)
  }

  /** Nothing is in the way of d. */
  ghost predicate Free(s: Store, refused: set<Path>, d: Path) {
    d !in refused && d !in s.dirs && forall f <- s.files :: !(f <= d)
  }

  /**
   With targets apart from each other the stacker files into exactly the job's directories below
   targets in use that were not there, are not refused, and have no file in the way; all of them
   exist then.
   */
  lemma {:induction false} OpensEveryTarget(c: Config, s: Store, msg: Message, refused: set<Path>, d: Path)
    requires msg.Job? && Apart(c.targets)
    ensures var t := Dispatched(c, s, msg, refused);
            && (d in t.active <==> TargetOf(c.targets, RelDir(msg), d) && Free(s, refused, d))
            && (d in t.active ==> d in t.dirs)
  {
    DispatchOpens(c, s, msg, refused);
    var cleared, k := s.(active := []), |c.targets|;
    assert OpenedAt(cleared, c.targets, msg, refused, k, Dispatched(c, s, msg, refused), d);
    if n: nat :| n < k && Opens(cleared, c.targets, msg, refused, n) && d == Dest(c.targets[n], msg) {
      assert OnTheWay(cleared, c.targets, msg, refused, k, d);
    }
    if TargetOf(c.targets, RelDir(msg), d) && Free(s, refused, d) {
      FirstOpens(cleared, c.targets, msg, refused, d, k);
    }
  }

  /** The first target in use with this directory opens it. */
  lemma {:induction false} FirstOpens(s: Store, targets: seq<Target>, msg: Message, refused: set<Path>, d: Path,
                                      k: nat)
    requires msg.Job? && Apart(targets) && Free(s, refused, d) && k <= |targets|
    requires exists n: nat :: n < k && targets[n].inUse && d == Dest(targets[n], msg)
    ensures Opened(s, targets, msg, refused, |targets|, d)
    decreases k
  {
    var n: nat :| n < k && targets[n].inUse && d == Dest(targets[n], msg);
    if m: nat :| m < n && targets[m].inUse && d == Dest(targets[m], msg) {
      FirstOpens(s, targets, msg, refused, d, n);
    } else {
      forall m: nat | m < n && Opens(s, targets, msg, refused, m)
        ensures var e := Dest(targets[m], msg);
                !(d <= e) && (targets[m].imageOnly || !(e + ["level2.txt"] <= d))
      {
        NotNested(targets, targets[n], targets[m], msg);
      }
      assert Opens(s, targets, msg, refused, n);
    }
  }

  lemma NotNested(targets: seq<Target>, a: Target, b: Target, msg: Message)
    requires msg.Job? && Apart(targets) && a in targets && b in targets && a.inUse && b.inUse
    requires Dest(a, msg) != Dest(b, msg)
    ensures !(Dest(a, msg) <= Dest(b, msg)) && !(Dest(b, msg) + ["level2.txt"] <= Dest(a, msg))
  {
    var rel := RelDir(msg);
    Below(a.path, b.path, rel, []);
    Below(b.path, a.path, rel, ["level2.txt"]);
    assert a.path + rel + [] == a.path + rel;
  }

  lemma Below(p: Path, q: Path, rel: Path, more: Path)
    ensures p + rel + more <= q + rel ==> p <= q && |p| + |more| <= |q|
  {
    if p + rel + more <= q + rel {
      assert (p + rel + more)[..|p|] == p && (q + rel)[..|p|] == q[..|p|];
    }
  }

  /** q is n tenths, truncated towards zero. */
  predicate IsTenth(n: int, q: int) {
    if n >= 0 then 10 * q <= n < 10 * q + 10 else 10 * q - 10 < n <= 10 * q
  }

  lemma TenthFact(n: int)
    ensures IsTenth(n, Tenth(n))
  {
  }

  /** The directory's name: the date's first eight characters, then the date, an underscore and the standard. */
  lemma {:induction false} JobDirectory(msg: Message, width: int, height: int)
    requires msg.Job? && IsTenth(msg.width, width) && IsTenth(msg.height, height)
    ensures var day := if |msg.date| >= 8 then msg.date[..8] else msg.date;
            RelDir(msg)
            == [day, msg.date + "_" + if msg.norm != "" then msg.norm
                                      else "Unknown" + Print(width) + "x" + Print(height)]
  {
    assert Tenth(msg.width) == width && Tenth(msg.height) == height;
  }

  // ----- An image -----

  lemma FileImageFact(s: Store, d: Path, dirname: string, name: string, data: seq<nat>)
    requires Tree(s) && d + [dirname] !in s.files
    ensures var t := FileImage(s, d, dirname, name, data);
            && Tree(t) && t.files == s.files[d + [dirname, name] := Image(data)]
            && t.active == s.active && t.counter == s.counter && s.dirs <= t.dirs
  {
    var dir := d + [dirname];
    var t := FileImage(s, d, dirname, name, data);
    assert dir == dir[..|dir|];
    assert dir + [name] == d + [dirname, name];
    forall e, k | e in t.dirs && 0 <= k <= |e| ensures e[..k] in t.dirs {
      if e !in s.dirs {
        var n :| 0 <= n <= |dir| && e == dir[..n];
        assert e[..k] == dir[..k];
      }
    }
    forall f, k | f in t.files && 0 <= k < |f| ensures f[..k] in t.dirs {
      if f !in s.files {
        assert (dir + [name])[..k] == dir[..k];
      }
    }
  }

  lemma {:induction false} FileAllFact(s: Store, ds: seq<Path>, dirname: string, name: string, data: seq<nat>)
    requires Tree(s) && '.' !in dirname && '.' in name
    requires forall d <- ds :: d + [dirname] !in s.files
    ensures var t := FileAll(s, ds, dirname, name, data);
            && Tree(t) && t.active == s.active && t.counter == s.counter && s.dirs <= t.dirs
            && t.files.Keys == s.files.Keys + Places(ds, dirname, name)
            && (forall p :: p in Places(ds, dirname, name) ==> t.files[p] == Image(data))
            && (forall p :: p in s.files && p !in Places(ds, dirname, name) ==> t.files[p] == s.files[p])
  {
    if ds != [] {
      var before, d := ds[..|ds| - 1], ds[|ds| - 1];
      assert ds == before + [d];
      FileAllFact(s, before, dirname, name, data);
      var m := FileAll(s, before, dirname, name, data);
      assert d + [dirname] !in m.files by {
        forall e | e in before ensures d + [dirname] != e + [dirname, name] {
          assert e + [dirname, name] == (e + [dirname]) + [name];
          PathSplit(d, e + [dirname], dirname, name);
        }
      }
      FileImageFact(m, d, dirname, name, data);
      assert Places(ds, dirname, name) == Places(before, dirname, name) + {d + [dirname, name]};
    }
  }

  lemma DirectoryFree(c: Config, h: History, d: Path, id: int)
    requires GoodConfig(c) && Inv(c, h) && d in h.store.active && id in c.streams
    ensures d + [c.streams[id]] !in h.store.files
  {
    assert Holds(c, h.store, d, h.since);
  }

  /** The place of the next image is free in every active directory. */
  lemma NextPlaceFree(c: Config, h: History, d: Path, id: int, camera: string)
    requires GoodConfig(c) && Inv(c, h) && d in h.store.active && id in c.streams
    ensures d + [c.streams[id], ImageName(camera, h.store.counter[id] + 1)] !in h.store.files
  {
    var name := ImageName(camera, h.store.counter[id] + 1);
    ImageNameDotted(camera, h.store.counter[id] + 1);
    assert Holds(c, h.store, d, h.since);
    var images := h.since[id];
    assert Complete(h.store.files, d, c.streams[id], images);
    if d + [c.streams[id], name] in h.store.files {
      var k: nat :| k < |images| && name == NameOf(images, k);
      ImageNameTells(camera, h.store.counter[id] + 1, images[k].camera, k + 1);
    }
  }

  lemma NamesPrefix(images: seq<Received>, r: Received, k: nat)
    requires k < |images|
    ensures NameOf(images + [r], k) == NameOf(images, k)
  {
  }

  /** One stream's directory after an image of that stream. */
  lemma CompleteAfter(before: map<Path, Content>, after: map<Path, Content>, d: Path, dirname: string,
                      images: seq<Received>, r: Received)
    requires Complete(before, d, dirname, images)
    requires var p := d + [dirname, ImageName(r.camera, |images| + 1)];
             && p !in before && p in after && after[p] == Image(r.data) && Kept(before, after)
             && forall y: string {:trigger d + [dirname, y]} :: d + [dirname, y] in after ==>
                 d + [dirname, y] in before || d + [dirname, y] == p
    ensures Complete(after, d, dirname, images + [r])
  {
    var all := images + [r];
    var name := ImageName(r.camera, |images| + 1);
    assert NameOf(all, |images|) == name;
    forall k: nat | k < |all|
      ensures d + [dirname, NameOf(all, k)] in after && after[d + [dirname, NameOf(all, k)]] == Image(all[k].data)
    {
      if k < |images| {
        NamesPrefix(images, r, k);
        assert NameOf(images, k) == NameOf(all, k);
      }
    }
    forall y: string | d + [dirname, y] in after && y != LEVEL2_TXT
      ensures exists k: nat {:trigger NameOf(all, k)} :: k < |all| && y == NameOf(all, k)
    {
      if d + [dirname, y] in before {
        var k: nat :| k < |images| && y == NameOf(images, k);
        NamesPrefix(images, r, k);
      } else {
        PathSplit2(d, d, dirname, y, dirname, name);
      }
    }
  }

  /** A directory of another stream is left alone. */
  lemma CompleteOther(before: map<Path, Content>, after: map<Path, Content>, d: Path, dirname: string,
                      images: seq<Received>)
    requires Complete(before, d, dirname, images) && Kept(before, after)
    requires forall y: string {:trigger d + [dirname, y]} :: d + [dirname, y] in after ==> d + [dirname, y] in before
    ensures Complete(after, d, dirname, images)
  {
  }

  lemma FiledHolds(c: Config, h: History, id: int, camera: string, data: seq<nat>, d: Path)
    requires GoodConfig(c) && Inv(c, h) && id in c.streams && d in h.store.active
    ensures Holds(c, Filed(c, h.store, id, camera, data), d, h.since[id := h.since[id] + [Received(camera, data)]])
  {
    var s, t := h.store, Filed(c, h.store, id, camera, data);
    var n := s.counter[id] + 1;
    var name, dirname := ImageName(camera, n), c.streams[id];
    ImageNameDotted(camera, n);
    FiledFiles(c, h, id, camera, data);
    assert Holds(c, s, d, h.since);
    forall y: string | d + [y] in t.files ensures '.' in y {
      if d + [y] !in s.files {
        var e :| e in s.active && d + [y] == e + [dirname, name];
        assert e + [dirname, name] == (e + [dirname]) + [name];
        PathSplit(d, e + [dirname], y, name);
      }
    }
    var since := h.since[id := h.since[id] + [Received(camera, data)]];
    forall i | i in c.streams ensures Complete(t.files, d, c.streams[i], since[i]) {
      assert Complete(s.files, d, c.streams[i], h.since[i]);
      forall y: string | d + [c.streams[i], y] in t.files && d + [c.streams[i], y] !in s.files
        ensures i == id && y == name
      {
        var e :| e in s.active && d + [c.streams[i], y] == e + [dirname, name];
        PathSplit2(d, e, c.streams[i], y, dirname, name);
      }
      if i == id {
        NextPlaceFree(c, h, d, id, camera);
        assert d + [dirname, name] in Places(s.active, dirname, name);
        CompleteAfter(s.files, t.files, d, dirname, h.since[id], Received(camera, data));
      } else {
        CompleteOther(s.files, t.files, d, c.streams[i], h.since[i]);
      }
    }
  }

  /** The files after an image: those before, untouched, and one new one under every active directory. */
  lemma FiledFiles(c: Config, h: History, id: int, camera: string, data: seq<nat>)
    requires GoodConfig(c) && Inv(c, h) && id in c.streams
    ensures var s, t := h.store, Filed(c, h.store, id, camera, data);
            var places := Places(s.active, c.streams[id], ImageName(camera, s.counter[id] + 1));
            && Tree(t) && t.active == s.active && s.dirs <= t.dirs
            && places !! s.files.Keys && t.files.Keys == s.files.Keys + places
            && Kept(s.files, t.files) && (forall p :: p in places ==> t.files[p] == Image(data))
  {
    var s := h.store;
    var name := ImageName(camera, s.counter[id] + 1);
    ImageNameDotted(camera, s.counter[id] + 1);
    forall d | d in s.active ensures d + [c.streams[id]] !in s.files && d + [c.streams[id], name] !in s.files {
      DirectoryFree(c, h, d, id);
      NextPlaceFree(c, h, d, id, camera);
    }
    FileAllFact(s, s.active, c.streams[id], name, data);
  }

  // ----- Runs -----

  datatype Event = JobMessage(msg: Message, refused: set<Path>) | ImageMessage(id: int, camera: string, data: seq<nat>)

  predicate Known(c: Config, e: Event) { e.ImageMessage? ==> e.id in c.streams }

  function Step(c: Config, h: History, e: Event): History
    requires Known(c, e) && (e.ImageMessage? ==> e.id in h.store.counter && e.id in h.since)
  {
    match e
    case JobMessage(msg, refused) =>
      History(Dispatched(c, h.store, msg, refused), if msg.Job? then Nothing(c) else h.since)
    case ImageMessage(id, camera, data) =>
      History(Filed(c, h.store, id, camera, data), h.since[id := h.since[id] + [Received(camera, data)]])
  }

  lemma {:induction false} StepInv(c: Config, h: History, e: Event)
    requires GoodConfig(c) && Inv(c, h) && Known(c, e)
    ensures Inv(c, Step(c, h, e)) && Kept(h.store.files, Step(c, h, e).store.files)
  {
    match e
    case JobMessage(msg, refused) =>
      if msg.Job? {
        var cleared := h.store.(active := []);
        OpenTargetsInv(c, cleared, c.targets, msg, refused);
        var m := OpenTargets(cleared, c.targets, msg, refused);
        var t := Step(c, h, e).store;
        forall d | d in t.active ensures Holds(c, t, d, Nothing(c)) {
          assert Holds(c, m, d, Nothing(c));
        }
      }
    case ImageMessage(id, camera, data) =>
      FiledFiles(c, h, id, camera, data);
      var t := Step(c, h, e);
      forall d | d in t.store.active ensures Holds(c, t.store, d, t.since) {
        FiledHolds(c, h, id, camera, data, d);
      }
  }

  ghost predicate Leads(c: Config, h: History, events: seq<Event>, t: History)
    decreases |events|
  {
    if events == [] then h == t
    else
      var e := events[0];
      && Known(c, e) && (e.ImageMessage? ==> e.id in h.store.counter && e.id in h.since)
      && Leads(c, Step(c, h, e), events[1..], t)
  }

  lemma {:induction false} RunInv(c: Config, h: History, events: seq<Event>, t: History)
    requires GoodConfig(c) && Inv(c, h) && Leads(c, h, events, t)
    ensures Inv(c, t) && Kept(h.store.files, t.store.files)
    decreases |events|
  {
    if events != [] {
      StepInv(c, h, events[0]);
      RunInv(c, Step(c, h, events[0]), events[1..], t);
    }
  }

  function Initial(c: Config, dirs: set<Path>, files: map<Path, Content>): History {
    History(Store(dirs, files, [], map id | id in c.streams :: 0), Nothing(c))
  }

  /**
   Over every run of job and image messages, on any file tree to start from: no file there at
   any time is ever changed; under every active directory each stream has exactly its images
   since the last complete job message, numbered from 1 without gaps, with their data; so all
   active directories hold the same images.
   */
  lemma {:induction false} StackerRun(c: Config, dirs: set<Path>, files: map<Path, Content>, past: seq<Event>,
                                      h: History,
                                      future: seq<Event>, t: History)
    requires GoodConfig(c) && Tree(Initial(c, dirs, files).store)
    requires Leads(c, Initial(c, dirs, files), past, h) && Leads(c, h, future, t)
    ensures Kept(files, h.store.files) && Kept(h.store.files, t.store.files)
    ensures forall d, id :: d in t.store.active && id in c.streams ==>
              id in t.since && Complete(t.store.files, d, c.streams[id], t.since[id])
              && id in t.store.counter && t.store.counter[id] == |t.since[id]|
    ensures forall d, e, id, y: string {:trigger d + [c.streams[id], y], e + [c.streams[id], y]} ::
              d in t.store.active && e in t.store.active && id in c.streams && y != LEVEL2_TXT
              && d + [c.streams[id], y] in t.store.files ==>
              e + [c.streams[id], y] in t.store.files &&
                  t.store.files[e + [c.streams[id], y]] == t.store.files[d + [c.streams[id], y]]
  {
    RunInv(c, Initial(c, dirs, files), past, h);
    RunInv(c, h, future, t);
    forall d, id | d in t.store.active && id in c.streams
      ensures Complete(t.store.files, d, c.streams[id], t.since[id])
    {
      assert Holds(c, t.store, d, t.since);
    }
    forall d, e, id, y: string | d in t.store.active && e in t.store.active && id in c.streams && y != LEVEL2_TXT
                                 && d + [c.streams[id], y] in t.store.files
      ensures e + [c.streams[id], y] in t.store.files &&
          t.store.files[e + [c.streams[id], y]] == t.store.files[d + [c.streams[id], y]]
    {
      var images := t.since[id];
      var k: nat :| k < |images| && y == NameOf(images, k);
      assert Complete(t.store.files, e, c.streams[id], images);
    }
  }

  /** An incomplete message leaves the stacker without a directory: every image after it is counted and dropped. */
  lemma {:induction false} IncompleteDropsImages(c: Config, h: History, refused: set<Path>, events: seq<Event>,
                                                 t: History)
    requires forall e <- events :: e.ImageMessage?
    requires Leads(c, Step(c, h, JobMessage(Incomplete, refused)), events, t)
    ensures t.store.files == h.store.files && t.store.dirs == h.store.dirs && t.store.active == []
  {
    DropsImages(c, Step(c, h, JobMessage(Incomplete, refused)), events, t);
  }

  lemma {:induction false} DropsImages(c: Config, h: History, events: seq<Event>, t: History)
    requires h.store.active == [] && Leads(c, h, events, t) && forall e <- events :: e.ImageMessage?
    ensures t.store.files == h.store.files && t.store.dirs == h.store.dirs && t.store.active == []
    decreases |events|
  {
    if events != [] {
      assert events[0].ImageMessage?;
      DropsImages(c, Step(c, h, events[0]), events[1..], t);
    }
  }

  /**
   A job message that comes a second time, or another one with the same date and standard,
   opens none of the directories the first one opened: they exist by then.
   */
  lemma {:induction false} SameJobAgain(c: Config, s: Store, msg: Message, again: Message, refused: set<Path>,
                                        refused2: set<Path>)
    requires GoodConfig(c) && Tree(s) && msg.Job? && again.Job? && RelDir(msg) == RelDir(again)
    ensures var t := Dispatched(c, s, msg, refused);
            forall d :: d in t.active ==> d !in Dispatched(c, t, again, refused2).active
  {
    var cleared := s.(active := []);
    OpenTargetsInv(c, cleared, c.targets, msg, refused);
    var t := Dispatched(c, s, msg, refused);
    var m := OpenTargets(cleared, c.targets, msg, refused);
    forall d | d in t.active ensures d in t.dirs {
      assert Holds(c, m, d, Nothing(c));
    }
    OpenTargetsInv(c, t.(active := []), c.targets, again, refused2);
  }
}
