/**
 The incremental index: commits are diffed, changed files become events, events are re-parsed and filtered, and the
 graph's active nodes are updated. The reference is the index built from the current commit alone.
 */
module IncrementalIndex {
  import opened Options

  type Path = string
  type Content = string
  type Hash = string

  datatype Language = Python | Go | TypeScript

  /** A hash of repository, file, node type and qualified name, taken as injective: what identifies a node. */
  datatype StableId = StableId(path: Path, local: string)

  datatype Node = Node(sid: StableId, hash: Hash)

  datatype LocalNode = LocalNode(local: string, hash: Hash)

  /** extract is the shared parser: None when the text does not parse. */
  datatype Tools = Tools(language: Path -> Option<Language>, extract: (Language, Content) -> Option<seq<LocalNode>>)

  type Commit = map<Path, Content>

  /** The graph's active nodes. */
  type Index = map<StableId, Hash>

  datatype DiffType = FullRescan | Added | Modified | Deleted

  /** The listed ids are only ever used as sets. commit is what the parser finds in the working tree. */
  datatype FileChanged = FileChanged(
    path: Path, diffType: DiffType, changed: set<StableId>, added: set<StableId>, deleted: set<StableId>,
    commit: Commit)

  function At<K, V>(m: map<K, V>, k: K): Option<V> {
    if k in m then Some(m[k]) else None
  }

  // ---- Parsing on both sides ----

  function InFile(path: Path, nodes: seq<LocalNode>): seq<Node> {
    seq(|nodes|, i requires 0 <= i < |nodes| => Node(StableId(path, nodes[i].local), nodes[i].hash))
  }

  /** The watcher parses Python only; anything else, and anything broken, yields no nodes. */
  function ParseNodes(t: Tools, path: Path, content: Content): seq<Node> {
    if t.language(path) != Some(Python) then []
    else
      match t.extract(Python, content)
      case None => []
      case Some(nodes) => InFile(path, nodes)
  }

  /** The parser service knows Python and Go and fails on anything else. */
  function ParseFile(t: Tools, path: Path, content: Content): Option<seq<Node>> {
    match t.language(path)
    case Some(Python) => (match t.extract(Python, content) case None => None case Some(n) => Some(InFile(path, n)))
    case Some(Go) => (match t.extract(Go, content) case None => None case Some(n) => Some(InFile(path, n)))
    case _ => None
  }

  /** Later definitions of one id win. */
  function Hashes(nodes: seq<Node>): Index {
    if nodes == [] then map[] else Hashes(nodes[..|nodes|-1])[nodes[|nodes|-1].sid := nodes[|nodes|-1].hash]
  }

  function Show(c: Commit, path: Path): Content {
    if path in c then c[path] else ""
  }

  // ---- From a diff to events ----

  datatype Changes = Changes(changed: set<StableId>, added: set<StableId>, deleted: set<StableId>)

  function ChangedNodes(t: Tools, path: Path, prev: Commit, cur: Commit): Changes {
    var before := Hashes(ParseNodes(t, path, Show(prev, path)));
    var after := Hashes(ParseNodes(t, path, Show(cur, path)));
    var changed := set s | s in after && s in before && before[s] != after[s];
    Changes(changed, after.Keys - before.Keys, before.Keys - after.Keys)
  }

  /** One line of a name-status diff. */
  datatype DiffLine = DiffLine(status: char, path: Path)

  function DiffTypeOf(status: char): DiffType {
    if status == 'A' then Added else if status == 'D' then Deleted else Modified
  }

  function EventOf(t: Tools, prev: Commit, cur: Commit, line: DiffLine): FileChanged {
    match DiffTypeOf(line.status)
    case Added =>
      FileChanged(line.path, Added, {}, Hashes(ParseNodes(t, line.path, Show(cur, line.path))).Keys, {}, cur)
    case Deleted =>
      FileChanged(line.path, Deleted, {}, {}, Hashes(ParseNodes(t, line.path, Show(prev, line.path))).Keys, cur)
    case _ =>
      var c := ChangedNodes(t, line.path, prev, cur);
      FileChanged(line.path, Modified, c.changed, c.added, c.deleted, cur)
  }

  function RescanOf(t: Tools, cur: Commit, path: Path): FileChanged {
    FileChanged(path, FullRescan, {}, Hashes(ParseNodes(t, path, Show(cur, path))).Keys, {}, cur)
  }

  /** The events of a diff: unsupported files are passed over. */
  function Events(t: Tools, prev: Commit, cur: Commit, diff: seq<DiffLine>): seq<FileChanged> {
    if diff == [] then [] else
      var line := diff[|diff|-1];
      Events(t, prev, cur, diff[..|diff|-1]) + if t.language(line.path).None? then [] else [EventOf(t, prev, cur, line)]
  }

  function Rescans(t: Tools, cur: Commit, files: seq<Path>): seq<FileChanged> {
    if files == [] then [] else
      Rescans(t, cur, files[..|files|-1])
      + if t.language(files[|files|-1]).None? then [] else [RescanOf(t, cur, files[|files|-1])]
  }

  /** The supported files among those git lists, and the supported lines of a diff. */
  function Supported(t: Tools, files: seq<Path>): seq<Path> {
    if files == [] then [] else
      Supported(t, files[..|files|-1]) + if t.language(files[|files|-1]).Some? then [files[|files|-1]] else []
  }

  function SupportedLines(t: Tools, diff: seq<DiffLine>): seq<DiffLine> {
    if diff == [] then [] else
      SupportedLines(t, diff[..|diff|-1]) + if t.language(diff[|diff|-1].path).Some? then [diff[|diff|-1]] else []
  }

  /** A commit's k-th emission: raises says whether it fails, took whether the event is on the stream even so. */
  datatype Emissions = Emissions(raises: nat -> bool, took: nat -> bool)

  /** The first of n emissions that fails, or n. */
  function FirstFailure(em: Emissions, n: nat): (k: nat)
    ensures k <= n && (k < n ==> em.raises(k)) && forall i :: 0 <= i < k ==> !em.raises(i)
  {
    if n == 0 then 0
    else if FirstFailure(em, n - 1) < n - 1 then FirstFailure(em, n - 1)
    else if em.raises(n - 1) then n - 1
    else n
  }

  /** How many of n events reach the stream. */
  function Reaching(em: Emissions, n: nat): (k: nat)
    ensures k <= n
  {
    var k := FirstFailure(em, n);
    if k < n && em.took(k) then k + 1 else k
  }

  lemma FailsThere(em: Emissions, k: nat, n: nat)
    requires k < n && FirstFailure(em, k) == k && em.raises(k)
    ensures FirstFailure(em, n) == k && Reaching(em, n) == if em.took(k) then k + 1 else k
  {
  }

  lemma PrefixParts<T>(s: seq<T>, front: seq<T>, x: T)
    requires front + [x] <= s
    ensures |front| < |s| && s[..|front|] == front && s[..|front|+1] == front + [x]
  {
  }

  lemma EmissionFails(em: Emissions, events: seq<FileChanged>, before: seq<FileChanged>, e: FileChanged)
    requires before + [e] <= events && FirstFailure(em, |before|) == |before| && em.raises(|before|)
    ensures FirstFailure(em, |events|) == |before|
    ensures events[..Reaching(em, |events|)] == if em.took(|before|) then before + [e] else before
  {
    hide FirstFailure;
    hide Reaching;
    PrefixParts(events, before, e);
    FailsThere(em, |before|, |events|);
  }

  lemma FailureOfNone(em: Emissions)
    ensures FirstFailure(em, 0) == 0
  {
  }

  lemma EmissionGoesOn(em: Emissions, k: nat)
    requires FirstFailure(em, k) == k && !em.raises(k)
    ensures FirstFailure(em, k + 1) == k + 1
  {
  }

  lemma AllReach(em: Emissions, events: seq<FileChanged>)
    requires FirstFailure(em, |events|) == |events|
    ensures events[..Reaching(em, |events|)] == events
  {
  }

  /** The watcher: a commit's events go to the stream in diff order. */
  class Watcher {
    var stream: seq<FileChanged>

    constructor ()
      ensures stream == []
    {
      stream := [];
    }

    method GetAllFiles(t: Tools, tracked: seq<Path>) returns (files: seq<Path>)
      ensures files == Supported(t, tracked)
    {
      files := [];
      for i := 0 to |tracked|
        invariant files == Supported(t, tracked[..i])
      {
        assert tracked[..i+1][..i] == tracked[..i];
        if t.language(tracked[i]).Some? {
          files := files + [tracked[i]];
        }
      }
      assert tracked[..|tracked|] == tracked;
    }

    method GetChangedFiles(t: Tools, diff: seq<DiffLine>) returns (changed: seq<DiffLine>)
      ensures changed == SupportedLines(t, diff)
    {
      changed := [];
      for i := 0 to |diff|
        invariant changed == SupportedLines(t, diff[..i])
      {
        assert diff[..i+1][..i] == diff[..i];
        if t.language(diff[i].path).Some? {
          changed := changed + [diff[i]];
        }
      }
      assert diff[..|diff|] == diff;
    }

    /** Appends to the stream unless the call fails beforehand. */
    method EmitEvent(e: FileChanged, k: nat, em: Emissions) returns (raised: bool)
      modifies this
      ensures raised == em.raises(k)
      ensures stream == old(stream) + if !em.raises(k) || em.took(k) then [e] else []
    {
      raised := em.raises(k);
      if !raised || em.took(k) {
        stream := stream + [e];
      }
    }

    method RescanAll(t: Tools, cur: Commit, files: seq<Path>, em: Emissions) returns (emitted: nat, raised: bool)
      modifies this
      ensures var events := Rescans(t, cur, files);
        && stream == old(stream) + events[..Reaching(em, |events|)]
        && emitted == FirstFailure(em, |events|) && raised == (emitted < |events|)
    {
      hide RescanOf;
      hide Rescans;
      hide FirstFailure;
      hide Reaching;
      FailureOfNone(em);
      NothingEmitted(t, cur, cur);
      emitted, raised := 0, false;
      for i := 0 to |files|
        invariant emitted == |Rescans(t, cur, files[..i])| == FirstFailure(em, emitted)
        invariant stream == old(stream) + Rescans(t, cur, files[..i])
      {
        RescansGrow(t, cur, files, i);
        if t.language(files[i]).Some? {
          raised := EmitEvent(RescanOf(t, cur, files[i]), emitted, em);
          if raised {
            EmissionFails(em, Rescans(t, cur, files), Rescans(t, cur, files[..i]), RescanOf(t, cur, files[i]));
            return;
          }
          EmissionGoesOn(em, emitted);
          emitted := emitted + 1;
        }
      }
      assert files[..|files|] == files;
      AllReach(em, Rescans(t, cur, files));
    }

    method EmitDiff(t: Tools, prev: Commit, cur: Commit, diff: seq<DiffLine>, em: Emissions)
      returns (emitted: nat, raised: bool)
      modifies this
      ensures var events := Events(t, prev, cur, diff);
        && stream == old(stream) + events[..Reaching(em, |events|)]
        && emitted == FirstFailure(em, |events|) && raised == (emitted < |events|)
    {
      hide EventOf;
      hide Events;
      hide FirstFailure;
      hide Reaching;
      FailureOfNone(em);
      NothingEmitted(t, prev, cur);
      emitted, raised := 0, false;
      for i := 0 to |diff|
        invariant emitted == |Events(t, prev, cur, diff[..i])| == FirstFailure(em, emitted)
        invariant stream == old(stream) + Events(t, prev, cur, diff[..i])
      {
        EventsGrow(t, prev, cur, diff, i);
        if t.language(diff[i].path).Some? {
          raised := EmitEvent(EventOf(t, prev, cur, diff[i]), emitted, em);
          if raised {
            ghost var before := Events(t, prev, cur, diff[..i]);
            EmissionFails(em, Events(t, prev, cur, diff), before, EventOf(t, prev, cur, diff[i]));
            return;
          }
          EmissionGoesOn(em, emitted);
          emitted := emitted + 1;
        }
      }
      assert diff[..|diff|] == diff;
      AllReach(em, Events(t, prev, cur, diff));
    }

    /**
     A first run rescans every file; later runs emit the difference to the commit before. The result counts events and
     files, unless an emission raised: then the events so far are on the stream, and the caller keeps the old commit.
     */
    method ProcessCommit(
      t: Tools, prev: Option<Commit>, cur: Commit, tracked: seq<Path>, diff: seq<DiffLine>, em: Emissions)
      returns (r: Option<(nat, nat)>)
      modifies this
      ensures var events := if prev.None? then Rescans(t, cur, tracked) else Events(t, prev.value, cur, diff);
        && stream == old(stream) + events[..Reaching(em, |events|)]
        && r == if FirstFailure(em, |events|) < |events| then None else Some((|events|, |events|))
    {
      hide Rescans;
      hide Events;
      if prev.None? {
        var files := GetAllFiles(t, tracked);
        FilterFirst(t, cur, tracked);
        var emitted, raised := RescanAll(t, cur, files, em);
        return if raised then None else Some((emitted, |files|));
      } else {
        var changed := GetChangedFiles(t, diff);
        FilterLinesFirst(t, prev.value, cur, diff);
        var emitted, raised := EmitDiff(t, prev.value, cur, changed, em);
        return if raised then None else Some((emitted, |changed|));
      }
    }
  }

  lemma {:induction false} FilterFirst(t: Tools, cur: Commit, files: seq<Path>)
    ensures Rescans(t, cur, Supported(t, files)) == Rescans(t, cur, files)
    ensures |Rescans(t, cur, files)| == |Supported(t, files)|
  {
    hide RescanOf;
    if files != [] {
      var front, f := files[..|files|-1], files[|files|-1];
      FilterFirst(t, cur, front);
      if t.language(f).Some? {
        assert (Supported(t, front) + [f])[..|Supported(t, front)|] == Supported(t, front);
      } else {
        assert Supported(t, front) + [] == Supported(t, front);
        assert Rescans(t, cur, front) + [] == Rescans(t, cur, front);
      }
    }
  }

  lemma {:induction false} FilterLinesFirst(t: Tools, prev: Commit, cur: Commit, diff: seq<DiffLine>)
    ensures Events(t, prev, cur, SupportedLines(t, diff)) == Events(t, prev, cur, diff)
    ensures |Events(t, prev, cur, diff)| == |SupportedLines(t, diff)|
  {
    hide EventOf;
    if diff != [] {
      var front, line := diff[..|diff|-1], diff[|diff|-1];
      FilterLinesFirst(t, prev, cur, front);
      if t.language(line.path).Some? {
        assert (SupportedLines(t, front) + [line])[..|SupportedLines(t, front)|] == SupportedLines(t, front);
      } else {
        assert SupportedLines(t, front) + [] == SupportedLines(t, front);
        assert Events(t, prev, cur, front) + [] == Events(t, prev, cur, front);
      }
    }
  }

  lemma NothingEmitted(t: Tools, prev: Commit, cur: Commit)
    ensures Events(t, prev, cur, []) == [] && Rescans(t, cur, []) == []
  {
  }

  /** The events of the first i lines come first, then that of line i if there is one. */
  lemma {:induction false} EventsGrow(t: Tools, prev: Commit, cur: Commit, diff: seq<DiffLine>, i: nat)
    requires i < |diff|
    ensures var before, line := Events(t, prev, cur, diff[..i]), diff[i];
      var more := before + if t.language(line.path).None? then [] else [EventOf(t, prev, cur, line)];
      Events(t, prev, cur, diff[..i+1]) == more <= Events(t, prev, cur, diff)
    decreases |diff|
  {
    hide EventOf;
    assert diff[..i+1][..i] == diff[..i] && diff[..|diff|] == diff;
    if i < |diff| - 1 {
      var front := diff[..|diff|-1];
      EventsGrow(t, prev, cur, front, i);
      assert front[..i] == diff[..i] && front[..i+1] == diff[..i+1];
    }
  }

  lemma {:induction false} RescansGrow(t: Tools, cur: Commit, files: seq<Path>, i: nat)
    requires i < |files|
    ensures var before := Rescans(t, cur, files[..i]);
      var more := before + if t.language(files[i]).None? then [] else [RescanOf(t, cur, files[i])];
      Rescans(t, cur, files[..i+1]) == more <= Rescans(t, cur, files)
    decreases |files|
  {
    hide RescanOf;
    assert files[..i+1][..i] == files[..i] && files[..|files|] == files;
    if i < |files| - 1 {
      var front := files[..|files|-1];
      RescansGrow(t, cur, front, i);
      assert front[..i] == files[..i] && front[..i+1] == files[..i+1];
    }
  }

  // ---- From events to the index ----

  function ApplyDiffFilter(nodes: seq<Node>, e: FileChanged): seq<Node> {
    match e.diffType
    case FullRescan => nodes
    case Added => nodes
    case Deleted => []
    case Modified => Keep(nodes, e.changed + e.added)
  }

  function Keep(nodes: seq<Node>, ids: set<StableId>): seq<Node> {
    if nodes == [] then [] else
      Keep(nodes[..|nodes|-1], ids) + if nodes[|nodes|-1].sid in ids then [nodes[|nodes|-1]] else []
  }

  /** One event's effect: deletions need no parse; otherwise a file that fails to parse emits nothing. */
  function Apply(t: Tools, index: Index, e: FileChanged): Index {
    if e.diffType == Deleted then index - e.deleted
    else
      match ParseFile(t, e.path, Show(e.commit, e.path))
      case None => index
      case Some(nodes) => (index + Hashes(ApplyDiffFilter(nodes, e))) - e.deleted
  }

  function Replay(t: Tools, index: Index, events: seq<FileChanged>): Index {
    if events == [] then index else Apply(t, Replay(t, index, events[..|events|-1]), events[|events|-1])
  }

  // ---- The reference ----

  /** What a parse of commit c from scratch says about one id. */
  function Expected(t: Tools, c: Commit, sid: StableId): Option<Hash> {
    if sid.path !in c then None
    else
      match ParseFile(t, sid.path, c[sid.path])
      case None => None
      case Some(nodes) => At(Hashes(nodes), sid)
  }

  ghost predicate FileAt(t: Tools, index: Index, c: Commit, path: Path) {
    forall sid: StableId :: sid.path == path ==> At(index, sid) == Expected(t, c, sid)
  }

  /** The index is exactly that of commit c. */
  ghost predicate IndexOf(t: Tools, index: Index, c: Commit) {
    forall sid: StableId :: At(index, sid) == Expected(t, c, sid)
  }

  /** Commits whose files are Python that parses, or of no supported language. */
  ghost predicate PlainPython(t: Tools, c: Commit) {
    forall p :: p in c ==> t.language(p).None? || (t.language(p) == Some(Python) && t.extract(Python, c[p]).Some?)
  }

  ghost predicate Listed(diff: seq<DiffLine>, p: Path) {
    exists i :: 0 <= i < |diff| && diff[i].path == p
  }

  /** The lines of a diff without renames: one per supported path that differs, and perhaps others, with statuses. */
  ghost predicate IsDiff(t: Tools, prev: Commit, cur: Commit, diff: seq<DiffLine>) {
    && (forall i, j :: 0 <= i < j < |diff| ==> diff[i].path != diff[j].path)
    && (forall i :: 0 <= i < |diff| ==> LineFits(prev, cur, diff[i]))
    && (forall p :: At(prev, p) != At(cur, p) && t.language(p).Some? ==> Listed(diff, p))
  }

  ghost predicate LineFits(prev: Commit, cur: Commit, line: DiffLine) {
    match line.status
    case 'A' => line.path !in prev && line.path in cur
    case 'D' => line.path in prev && line.path !in cur
    case 'M' => line.path in prev && line.path in cur
    case _ => false
  }

  /** All supported files of a commit, and perhaps others of its files. */
  ghost predicate IsListing(t: Tools, c: Commit, files: seq<Path>) {
    (forall p :: p in files ==> p in c) && (forall p :: p in c && t.language(p).Some? ==> p in files)
  }

  // ---- One event ----

  lemma {:induction false} HashesInFile(path: Path, nodes: seq<LocalNode>)
    ensures forall sid :: sid in Hashes(InFile(path, nodes)) ==> sid.path == path
  {
    if nodes != [] {
      var front := nodes[..|nodes|-1];
      HashesInFile(path, front);
      assert InFile(path, nodes)[..|nodes|-1] == InFile(path, front);
    }
  }

  lemma HashesMore(nodes: seq<Node>, n: Node)
    ensures Hashes(nodes + [n]) == Hashes(nodes)[n.sid := n.hash]
  {
  }

  lemma {:induction false} KeepHashes(nodes: seq<Node>, ids: set<StableId>, sid: StableId)
    ensures At(Hashes(Keep(nodes, ids)), sid) == if sid in ids then At(Hashes(nodes), sid) else None
  {
    hide Hashes;
    if nodes == [] {
      assert Hashes([]) == map[] by { HashesOfNone(); }
    } else {
      var front, n := nodes[..|nodes|-1], nodes[|nodes|-1];
      KeepHashes(front, ids, sid);
      assert nodes == front + [n];
      HashesMore(front, n);
      if n.sid in ids {
        HashesMore(Keep(front, ids), n);
      } else {
        assert Keep(front, ids) + [] == Keep(front, ids);
      }
    }
  }

  lemma HashesOfNone()
    ensures Hashes([]) == map[]
  {
  }

  // ---- What is indexed and what events list, in terms of the parser's answers ----

  /** The last definition of a name stands at i. */
  ghost predicate StandsAt(nodes: seq<LocalNode>, i: nat, local: string) {
    i < |nodes| && nodes[i].local == local && forall j :: i < j < |nodes| ==> nodes[j].local != local
  }

  ghost predicate Defines(nodes: seq<LocalNode>, local: string, hash: Hash) {
    exists i: nat :: StandsAt(nodes, i, local) && nodes[i].hash == hash
  }

  lemma DefinesMore(nodes: seq<LocalNode>, local: string, hash: Hash)
    requires nodes != []
    ensures var last := nodes[|nodes|-1];
      Defines(nodes, local, hash) <==>
      if last.local == local then last.hash == hash else Defines(nodes[..|nodes|-1], local, hash)
  {
    var front, last := nodes[..|nodes|-1], nodes[|nodes|-1];
    if last.local == local {
      assert StandsAt(nodes, |front|, local);
    } else if i: nat :| StandsAt(front, i, local) && front[i].hash == hash {
      forall j | i < j < |nodes| ensures nodes[j].local != local {
        if j < |front| { assert nodes[j] == front[j]; }
      }
      assert StandsAt(nodes, i, local);
    } else if i: nat :| StandsAt(nodes, i, local) && nodes[i].hash == hash {
      assert StandsAt(front, i, local) by {
        forall j | i < j < |front| ensures front[j].local != local { assert front[j] == nodes[j]; }
      }
    }
  }

  /** A file's hash of an id is that of the last node of that name. */
  lemma {:induction false} LastDefinitionWins(path: Path, nodes: seq<LocalNode>, sid: StableId, hash: Hash)
    ensures At(Hashes(InFile(path, nodes)), sid) == Some(hash) <==> sid.path == path && Defines(nodes, sid.local, hash)
  {
    if nodes == [] {
      HashesOfNone();
      assert InFile(path, nodes) == [];
    } else {
      var front, last := nodes[..|nodes|-1], nodes[|nodes|-1];
      LastDefinitionWins(path, front, sid, hash);
      DefinesMore(nodes, sid.local, hash);
      HashesMore(InFile(path, front), Node(StableId(path, last.local), last.hash));
      hide Hashes;
      assert InFile(path, nodes) == InFile(path, front) + [Node(StableId(path, last.local), last.hash)];
    }
  }

  /** The text of a file as a watcher sees it: empty when the commit has no such file. */
  function TextIn(c: Commit, path: Path): Content {
    match At(c, path)
    case None => ""
    case Some(text) => text
  }

  /** The watcher finds the id in its file at commit c, with that hash: the file is Python and parses. */
  ghost predicate Finds(t: Tools, c: Commit, sid: StableId, hash: Hash) {
    && t.language(sid.path) == Some(Python) && t.extract(Python, TextIn(c, sid.path)).Some?
    && Defines(t.extract(Python, TextIn(c, sid.path)).value, sid.local, hash)
  }

  ghost predicate FindsAny(t: Tools, c: Commit, sid: StableId) {
    exists hash :: Finds(t, c, sid, hash)
  }

  lemma FoundAre(t: Tools, c: Commit, path: Path, sid: StableId)
    ensures var found := Hashes(ParseNodes(t, path, Show(c, path)));
      && (forall hash :: sid in found && found[sid] == hash <==> sid.path == path && Finds(t, c, sid, hash))
      && (sid in found <==> sid.path == path && FindsAny(t, c, sid))
  {
    var found := Hashes(ParseNodes(t, path, Show(c, path)));
    hide Defines;
    forall hash ensures sid in found && found[sid] == hash <==> sid.path == path && Finds(t, c, sid, hash) {
      HashesOfNone();
      if t.language(path) == Some(Python) && t.extract(Python, Show(c, path)).Some? {
        LastDefinitionWins(path, t.extract(Python, Show(c, path)).value, sid, hash);
      }
    }
    if sid in found { assert Finds(t, c, sid, found[sid]); }
  }

  /** What the parser service would index of commit c: the nodes of its Python and Go files that parse. */
  lemma ExpectedIs(t: Tools, c: Commit, sid: StableId, hash: Hash)
    ensures Expected(t, c, sid) == Some(hash) <==>
      && sid.path in c && (t.language(sid.path) == Some(Python) || t.language(sid.path) == Some(Go))
      && var nodes := t.extract(t.language(sid.path).value, c[sid.path]);
      nodes.Some? && Defines(nodes.value, sid.local, hash)
  {
    hide Defines;
    hide Hashes;
    if sid.path in c && t.language(sid.path).Some? && t.language(sid.path).value in {Python, Go} {
      var lang := t.language(sid.path).value;
      if t.extract(lang, c[sid.path]).Some? {
        LastDefinitionWins(sid.path, t.extract(lang, c[sid.path]).value, sid, hash);
      }
    }
  }

  /**
   An event carries its line's path and status and the new commit. It lists as added what only the new text defines, as
   deleted what only the old one does, and as changed what both define with different hashes; an addition and a
   deletion look at one text alone, and a rescan lists everything as added.
   */
  lemma EventLists(t: Tools, prev: Commit, cur: Commit, line: DiffLine, sid: StableId)
    ensures var e := EventOf(t, prev, cur, line);
      var old', new' := FindsAny(t, prev, sid), FindsAny(t, cur, sid);
      && e.path == line.path && e.commit == cur
      && e.diffType == (if line.status == 'A' then Added else if line.status == 'D' then Deleted else Modified)
      && (sid in e.added <==> sid.path == line.path && line.status != 'D' && new' && (line.status == 'A' || !old'))
      && (sid in e.deleted <==> sid.path == line.path && line.status != 'A' && old' && (line.status == 'D' || !new'))
      && (sid in e.changed <==>
            && sid.path == line.path && line.status != 'A' && line.status != 'D'
            && exists h, h' :: Finds(t, prev, sid, h) && Finds(t, cur, sid, h') && h != h')
  {
    hide Hashes;
    hide ParseNodes;
    hide Finds;
    FoundAre(t, prev, line.path, sid);
    FoundAre(t, cur, line.path, sid);
    var before := Hashes(ParseNodes(t, line.path, Show(prev, line.path)));
    var after := Hashes(ParseNodes(t, line.path, Show(cur, line.path)));
    if sid in before && sid in after && before[sid] != after[sid] {
      assert Finds(t, prev, sid, before[sid]) && Finds(t, cur, sid, after[sid]);
    }
  }

  lemma RescanLists(t: Tools, cur: Commit, path: Path, sid: StableId)
    ensures var e := RescanOf(t, cur, path);
      && e.path == path && e.commit == cur && e.diffType == FullRescan && e.changed == {} == e.deleted
      && (sid in e.added <==> sid.path == path && FindsAny(t, cur, sid))
  {
    hide Hashes;
    hide ParseNodes;
    FoundAre(t, cur, path, sid);
  }

  predicate SupportedAt(t: Tools, paths: seq<Path>, i: nat) {
    i < |paths| && t.language(paths[i]).Some?
  }

  /** idx lists, in order, exactly the positions whose path has a supported language. */
  ghost predicate Picks(t: Tools, paths: seq<Path>, idx: seq<nat>) {
    && (forall j, k :: 0 <= j < k < |idx| ==> idx[j] < idx[k])
    && (forall k :: 0 <= k < |idx| ==> SupportedAt(t, paths, idx[k]))
    && (forall i: nat :: SupportedAt(t, paths, i) ==> i in idx)
  }

  lemma PicksNone(t: Tools)
    ensures Picks(t, [], [])
  {
  }

  lemma PicksIn<T>(t: Tools, paths: seq<Path>, idx: seq<nat>, xs: seq<T>)
    requires Picks(t, paths, idx) && |paths| < |xs|
    ensures forall k :: 0 <= k < |idx| ==> idx[k] < |paths| && xs[..|paths|][idx[k]] == xs[idx[k]]
  {
  }

  lemma PicksMore(t: Tools, paths: seq<Path>, idx: seq<nat>, path: Path)
    requires Picks(t, paths, idx)
    ensures Picks(t, paths + [path], if t.language(path).Some? then idx + [|paths|] else idx)
  {
    var paths', more := paths + [path], idx + [|paths|];
    forall i: nat
      ensures SupportedAt(t, paths', i) <==> SupportedAt(t, paths, i) || (i == |paths| && t.language(path).Some?)
    {
    }
    assert more[|idx|] == |paths|;
    forall k | 0 <= k < |idx| ensures idx[k] < |paths| { assert SupportedAt(t, paths, idx[k]); }
    hide SupportedAt;
  }

  /** A diff yields one event for each line about a supported file, in the order of the lines. */
  lemma {:induction false} EventsFollowLines(t: Tools, prev: Commit, cur: Commit, diff: seq<DiffLine>, paths: seq<Path>)
    returns (idx: seq<nat>)
    requires |paths| == |diff| && forall i :: 0 <= i < |diff| ==> paths[i] == diff[i].path
    ensures Picks(t, paths, idx) && |Events(t, prev, cur, diff)| == |idx|
    ensures forall k :: 0 <= k < |idx| ==> Events(t, prev, cur, diff)[k] == EventOf(t, prev, cur, diff[idx[k]])
  {
    hide EventOf;
    hide Picks;
    PicksNone(t);
    idx := [];
    if diff != [] {
      var n := |diff| - 1;
      idx := EventsFollowLines(t, prev, cur, diff[..n], paths[..n]);
      PicksIn(t, paths[..n], idx, diff);
      PicksMore(t, paths[..n], idx, paths[n]);
      assert paths[..n] + [paths[n]] == paths;
      idx := if t.language(paths[n]).Some? then idx + [n] else idx;
    }
  }

  /** A first run yields one rescan for each supported file, in the order of the files. */
  lemma {:induction false} RescansFollowFiles(t: Tools, cur: Commit, files: seq<Path>) returns (idx: seq<nat>)
    ensures Picks(t, files, idx) && |Rescans(t, cur, files)| == |idx|
    ensures forall k :: 0 <= k < |idx| ==> Rescans(t, cur, files)[k] == RescanOf(t, cur, files[idx[k]])
  {
    hide RescanOf;
    hide Picks;
    PicksNone(t);
    idx := [];
    if files != [] {
      var n := |files| - 1;
      idx := RescansFollowFiles(t, cur, files[..n]);
      PicksIn(t, files[..n], idx, files);
      PicksMore(t, files[..n], idx, files[n]);
      assert files[..n] + [files[n]] == files;
      idx := if t.language(files[n]).Some? then idx + [n] else idx;
    }
  }

  /** An event only touches nodes of its own file. */
  lemma EventIsLocal(t: Tools, index: Index, prev: Commit, cur: Commit, line: DiffLine, sid: StableId)
    requires sid.path != line.path
    ensures At(Apply(t, index, EventOf(t, prev, cur, line)), sid) == At(index, sid)
  {
    ParsedInFile(t, line.path, Show(prev, line.path), sid);
    ParsedInFile(t, line.path, Show(cur, line.path), sid);
    var e := EventOf(t, prev, cur, line);
    hide ParseNodes;
    assert sid !in e.deleted && e.path == line.path && e.commit == cur;
    hide EventOf;
    ApplyElsewhere(t, index, e, sid);
  }

  lemma ApplyElsewhere(t: Tools, index: Index, e: FileChanged, sid: StableId)
    requires sid !in e.deleted
    requires var parsed := ParseFile(t, e.path, Show(e.commit, e.path));
      parsed.Some? ==> sid !in Hashes(parsed.value)
    ensures At(Apply(t, index, e), sid) == At(index, sid)
  {
    hide ParseFile;
    var parsed := ParseFile(t, e.path, Show(e.commit, e.path));
    if parsed.Some? && e.diffType == Modified {
      KeepHashes(parsed.value, e.changed + e.added, sid);
    }
  }

  lemma ParsedInFile(t: Tools, path: Path, content: Content, sid: StableId)
    requires sid.path != path
    ensures sid !in Hashes(ParseNodes(t, path, content))
    ensures ParseFile(t, path, content).Some? ==> sid !in Hashes(ParseFile(t, path, content).value)
  {
    match t.language(path) {
      case Some(Python) => if t.extract(Python, content).Some? { HashesInFile(path, t.extract(Python, content).value); }
      case Some(Go) => if t.extract(Go, content).Some? { HashesInFile(path, t.extract(Go, content).value); }
      case _ =>
    }
  }

  ghost predicate PlainFile(t: Tools, c: Commit, path: Path) {
    t.language(path) == Some(Python) && (path in c ==> t.extract(Python, c[path]).Some?)
  }

  lemma ExpectedPython(t: Tools, c: Commit, sid: StableId)
    requires PlainFile(t, c, sid.path)
    ensures Expected(t, c, sid)
         == if sid.path in c then At(Hashes(ParseNodes(t, sid.path, c[sid.path])), sid) else None
  {
  }

  /** A Python file that is at the old or already at the new commit is at the new one after its event. */
  lemma EventMovesFile(t: Tools, index: Index, prev: Commit, cur: Commit, line: DiffLine)
    requires LineFits(prev, cur, line) && PlainFile(t, prev, line.path) && PlainFile(t, cur, line.path)
    requires FileAt(t, index, prev, line.path) || FileAt(t, index, cur, line.path)
    ensures FileAt(t, Apply(t, index, EventOf(t, prev, cur, line)), cur, line.path)
  {
    forall sid: StableId | sid.path == line.path
      ensures At(Apply(t, index, EventOf(t, prev, cur, line)), sid) == Expected(t, cur, sid)
    {
      EventMovesNode(t, index, prev, cur, line, sid);
    }
  }

  lemma EventMovesNode(t: Tools, index: Index, prev: Commit, cur: Commit, line: DiffLine, sid: StableId)
    requires LineFits(prev, cur, line) && PlainFile(t, prev, line.path) && PlainFile(t, cur, line.path)
    requires sid.path == line.path
    requires At(index, sid) == Expected(t, prev, sid) || At(index, sid) == Expected(t, cur, sid)
    ensures At(Apply(t, index, EventOf(t, prev, cur, line)), sid) == Expected(t, cur, sid)
  {
    ExpectedPython(t, prev, sid);
    ExpectedPython(t, cur, sid);
    var e := EventOf(t, prev, cur, line);
    if e.diffType == Modified {
      KeepHashes(ParseNodes(t, line.path, cur[line.path]), e.changed + e.added, sid);
    }
  }

  // ---- One commit ----

  /** Every file is at the old commit or already at the new one. */
  ghost predicate Between(t: Tools, index: Index, prev: Commit, cur: Commit) {
    forall p :: FileAt(t, index, prev, p) || FileAt(t, index, cur, p)
  }

  lemma FileUntouched(t: Tools, index: Index, prev: Commit, cur: Commit, line: DiffLine, c: Commit, p: Path)
    requires p != line.path && FileAt(t, index, c, p)
    ensures FileAt(t, Apply(t, index, EventOf(t, prev, cur, line)), c, p)
  {
    forall sid: StableId | sid.path == p
      ensures At(Apply(t, index, EventOf(t, prev, cur, line)), sid) == Expected(t, c, sid)
    {
      EventIsLocal(t, index, prev, cur, line, sid);
    }
  }

  lemma {:induction false} DiffMovesFile(
    t: Tools, index: Index, prev: Commit, cur: Commit, diff: seq<DiffLine>, p: Path)
    requires t.language(p).None? || (PlainFile(t, prev, p) && PlainFile(t, cur, p))
    requires forall i :: 0 <= i < |diff| ==> LineFits(prev, cur, diff[i])
    requires FileAt(t, index, prev, p) || FileAt(t, index, cur, p)
    ensures var index' := Replay(t, index, Events(t, prev, cur, diff));
      && (FileAt(t, index', prev, p) || FileAt(t, index', cur, p))
      && (Listed(diff, p) || FileAt(t, index, cur, p) ==> FileAt(t, index', cur, p))
    decreases |diff|
  {
    hide FileAt;
    hide Apply;
    hide EventOf;
    if diff == [] {
    } else {
      var front, line := diff[..|diff|-1], diff[|diff|-1];
      DiffMovesFile(t, index, prev, cur, front, p);
      var es, e := Events(t, prev, cur, front), EventOf(t, prev, cur, line);
      var mid := Replay(t, index, es);
      if t.language(line.path).None? {
        assert Events(t, prev, cur, diff) == es + [] == es;
        if line.path == p { UnsupportedIsEmpty(t, mid, prev, cur, p); } else { ListedBefore(diff, p); }
        return;
      }
      ReplayMore(t, index, es, e);
      if line.path == p {
        EventMovesFile(t, mid, prev, cur, line);
      } else {
        if FileAt(t, mid, prev, p) { FileUntouched(t, mid, prev, cur, line, prev, p); }
        if FileAt(t, mid, cur, p) { FileUntouched(t, mid, prev, cur, line, cur, p); }
        ListedBefore(diff, p);
      }
    }
  }

  lemma ReplayMore(t: Tools, index: Index, es: seq<FileChanged>, e: FileChanged)
    ensures Replay(t, index, es + [e]) == Apply(t, Replay(t, index, es), e)
  {
    assert (es + [e])[..|es|] == es;
  }

  lemma ListedBefore(diff: seq<DiffLine>, p: Path)
    requires diff != [] && diff[|diff|-1].path != p
    ensures Listed(diff, p) ==> Listed(diff[..|diff|-1], p)
  {
  }

  /** A file of no supported language has no nodes at any commit. */
  lemma UnsupportedIsEmpty(t: Tools, index: Index, prev: Commit, cur: Commit, p: Path)
    requires t.language(p).None?
    ensures FileAt(t, index, prev, p) <==> FileAt(t, index, cur, p)
  {
  }

  lemma SameTextSameFile(t: Tools, index: Index, prev: Commit, cur: Commit, p: Path)
    requires At(prev, p) == At(cur, p) && FileAt(t, index, prev, p)
    ensures FileAt(t, index, cur, p)
  {
  }

  lemma CommitReachesFile(t: Tools, index: Index, prev: Commit, cur: Commit, diff: seq<DiffLine>, p: Path)
    requires t.language(p).None? || (PlainFile(t, prev, p) && PlainFile(t, cur, p))
    requires IsDiff(t, prev, cur, diff) && (FileAt(t, index, prev, p) || FileAt(t, index, cur, p))
    ensures FileAt(t, Replay(t, index, Events(t, prev, cur, diff)), cur, p)
  {
    hide FileAt;
    var index' := Replay(t, index, Events(t, prev, cur, diff));
    DiffMovesFile(t, index, prev, cur, diff, p);
    if t.language(p).None? {
      UnsupportedIsEmpty(t, index', prev, cur, p);
    } else if !Listed(diff, p) && FileAt(t, index', prev, p) {
      SameTextSameFile(t, index', prev, cur, p);
    }
  }

  /**
   A commit's events bring the index to the new commit, also when some of them had been applied before: retrying an
   interrupted or already finished commit is harmless.
   */
  lemma CommitReachesCurrent(t: Tools, index: Index, prev: Commit, cur: Commit, diff: seq<DiffLine>)
    requires PlainPython(t, prev) && PlainPython(t, cur) && IsDiff(t, prev, cur, diff)
    requires Between(t, index, prev, cur)
    ensures IndexOf(t, Replay(t, index, Events(t, prev, cur, diff)), cur)
  {
    var index' := Replay(t, index, Events(t, prev, cur, diff));
    forall sid: StableId ensures At(index', sid) == Expected(t, cur, sid) {
      assert FileAt(t, index, prev, sid.path) || FileAt(t, index, cur, sid.path);
      if sid.path in prev || sid.path in cur || t.language(sid.path).None? {
        CommitReachesFile(t, index, prev, cur, diff, sid.path);
      } else {
        AbsentFile(t, index, prev, cur, diff, sid.path);
      }
      assert FileAt(t, index', cur, sid.path);
    }
  }

  /** A file in neither commit is in no line that fits, so no event is about it. */
  lemma {:induction false} AbsentFile(t: Tools, index: Index, prev: Commit, cur: Commit, diff: seq<DiffLine>, p: Path)
    requires p !in prev && p !in cur && (forall i :: 0 <= i < |diff| ==> LineFits(prev, cur, diff[i]))
    requires FileAt(t, index, prev, p) || FileAt(t, index, cur, p)
    ensures FileAt(t, Replay(t, index, Events(t, prev, cur, diff)), cur, p)
    decreases |diff|
  {
    hide Apply;
    hide EventOf;
    if diff == [] {
      assert Events(t, prev, cur, diff) == [];
    } else {
      var front, line := diff[..|diff|-1], diff[|diff|-1];
      AbsentFile(t, index, prev, cur, front, p);
      var es := Events(t, prev, cur, front);
      if t.language(line.path).None? {
        assert Events(t, prev, cur, diff) == es + [] == es;
      } else {
        assert LineFits(prev, cur, line);
        ReplayMore(t, index, es, EventOf(t, prev, cur, line));
        FileUntouched(t, Replay(t, index, es), prev, cur, line, cur, p);
      }
    }
  }

  /** The first k events are those of some leading lines. */
  lemma {:induction false} EventPrefix(t: Tools, prev: Commit, cur: Commit, diff: seq<DiffLine>, k: nat)
    returns (j: nat)
    requires k <= |Events(t, prev, cur, diff)|
    ensures j <= |diff| && Events(t, prev, cur, diff)[..k] == Events(t, prev, cur, diff[..j])
    decreases |diff|
  {
    hide EventOf;
    if k == |Events(t, prev, cur, diff)| {
      j := |diff|;
      assert diff[..j] == diff;
    } else {
      var front := diff[..|diff|-1];
      j := EventPrefix(t, prev, cur, front, k);
      assert front[..j] == diff[..j];
    }
  }

  /** Every prefix of a commit's events leaves the index between the two commits, so a failure is always repairable. */
  lemma PrefixStaysBetween(t: Tools, index: Index, prev: Commit, cur: Commit, diff: seq<DiffLine>, k: nat)
    requires PlainPython(t, prev) && PlainPython(t, cur) && IsDiff(t, prev, cur, diff)
    requires k <= |Events(t, prev, cur, diff)| && Between(t, index, prev, cur)
    ensures Between(t, Replay(t, index, Events(t, prev, cur, diff)[..k]), prev, cur)
  {
    var j := EventPrefix(t, prev, cur, diff, k);
    hide FileAt;
    forall p ensures var index' := Replay(t, index, Events(t, prev, cur, diff[..j]));
      FileAt(t, index', prev, p) || FileAt(t, index', cur, p)
    {
      assert FileAt(t, index, prev, p) || FileAt(t, index, cur, p);
      if p in prev || p in cur || t.language(p).None? {
        DiffMovesFile(t, index, prev, cur, diff[..j], p);
      } else {
        AbsentFile(t, index, prev, cur, diff[..j], p);
      }
    }
  }

  /** A commit whose emission raised is processed again from the start, and ends where an undisturbed one would. */
  lemma RetryRepairs(t: Tools, index: Index, prev: Commit, cur: Commit, diff: seq<DiffLine>, em: Emissions)
    requires PlainPython(t, prev) && PlainPython(t, cur) && IsDiff(t, prev, cur, diff) && IndexOf(t, index, prev)
    ensures var events := Events(t, prev, cur, diff);
      IndexOf(t, Replay(t, Replay(t, index, events[..Reaching(em, |events|)]), events), cur)
  {
    var events := Events(t, prev, cur, diff);
    IndexOfIsBetween(t, index, prev, cur);
    PrefixStaysBetween(t, index, prev, cur, diff, Reaching(em, |events|));
    hide Between;
    hide Events;
    hide IndexOf;
    hide Replay;
    CommitReachesCurrent(t, Replay(t, index, events[..Reaching(em, |events|)]), prev, cur, diff);
  }

  lemma IndexOfIsBetween(t: Tools, index: Index, prev: Commit, cur: Commit)
    requires IndexOf(t, index, prev) || IndexOf(t, index, cur)
    ensures Between(t, index, prev, cur)
  {
  }

  /** Emitting a finished commit's events once more changes nothing. */
  lemma ReemittingIsIdempotent(t: Tools, index: Index, prev: Commit, cur: Commit, diff: seq<DiffLine>)
    requires PlainPython(t, prev) && PlainPython(t, cur) && IsDiff(t, prev, cur, diff) && IndexOf(t, index, prev)
    ensures var once := Replay(t, index, Events(t, prev, cur, diff));
      Replay(t, once, Events(t, prev, cur, diff)) == once
  {
    var once := Replay(t, index, Events(t, prev, cur, diff));
    IndexOfIsBetween(t, index, prev, cur);
    CommitReachesCurrent(t, index, prev, cur, diff);
    IndexOfIsBetween(t, once, prev, cur);
    CommitReachesCurrent(t, once, prev, cur, diff);
    SameIndex(t, once, Replay(t, once, Events(t, prev, cur, diff)), cur);
  }

  lemma SameIndex(t: Tools, a: Index, b: Index, c: Commit)
    requires IndexOf(t, a, c) && IndexOf(t, b, c)
    ensures a == b
  {
    forall sid ensures sid in a <==> sid in b {
      assert At(a, sid) == At(b, sid);
    }
    forall sid | sid in a ensures a[sid] == b[sid] {
      assert At(a, sid) == At(b, sid);
    }
  }

  // ---- Files the watcher does not parse ----

  function Or<T>(a: Option<T>, b: Option<T>): Option<T> {
    if a.Some? then a else b
  }

  predicate IsBlind(t: Tools, p: Path) {
    t.language(p).Some? && t.language(p) != Some(Python)
  }

  lemma BlindToNodes(t: Tools, prev: Commit, cur: Commit, line: DiffLine)
    requires IsBlind(t, line.path)
    ensures var e := EventOf(t, prev, cur, line);
      && e.path == line.path && e.commit == cur && e.diffType == DiffTypeOf(line.status)
      && e.changed == {} && e.added == {} && e.deleted == {}
  {
  }

  /** An event about such a file lists no nodes, so only an addition has an effect: it upserts what the file holds. */
  lemma BlindEvent(t: Tools, index: Index, prev: Commit, cur: Commit, line: DiffLine, sid: StableId)
    requires LineFits(prev, cur, line) && IsBlind(t, line.path) && sid.path == line.path
    ensures At(Apply(t, index, EventOf(t, prev, cur, line)), sid)
         == if line.status == 'A' then Or(Expected(t, cur, sid), At(index, sid)) else At(index, sid)
  {
    BlindToNodes(t, prev, cur, line);
    var e := EventOf(t, prev, cur, line);
    hide EventOf;
    var parsed := ParseFile(t, line.path, Show(cur, line.path));
    hide ParseFile;
    if e.diffType == Modified && parsed.Some? {
      assert e.changed + e.added == {};
      KeepHashes(parsed.value, {}, sid);
    }
  }

  /**
   One event about a file the watcher does not parse: the file's index is right afterwards exactly when the file was
   added, or both commits have the same nodes and hashes. A deleted file's nodes stay.
   */
  lemma BlindEventIsRightIff(t: Tools, index: Index, prev: Commit, cur: Commit, line: DiffLine)
    requires LineFits(prev, cur, line) && IsBlind(t, line.path) && FileAt(t, index, prev, line.path)
    ensures FileAt(t, Apply(t, index, EventOf(t, prev, cur, line)), cur, line.path)
       <==> line.status == 'A'
            || forall sid: StableId :: sid.path == line.path ==> Expected(t, prev, sid) == Expected(t, cur, sid)
  {
    var index' := Apply(t, index, EventOf(t, prev, cur, line));
    forall sid: StableId | sid.path == line.path
      ensures At(index', sid) == if line.status == 'A' then Expected(t, cur, sid) else Expected(t, prev, sid)
    {
      assert At(index, sid) == Expected(t, prev, sid);
      BlindEvent(t, index, prev, cur, line, sid);
    }
  }

  lemma {:induction false} BlindDiff(
    t: Tools, index: Index, prev: Commit, cur: Commit, diff: seq<DiffLine>, sid: StableId)
    requires IsBlind(t, sid.path) && forall i :: 0 <= i < |diff| ==> LineFits(prev, cur, diff[i])
    ensures At(Replay(t, index, Events(t, prev, cur, diff)), sid)
         == if Listed(diff, sid.path) && sid.path !in prev then Or(Expected(t, cur, sid), At(index, sid))
            else At(index, sid)
    decreases |diff|
  {
    hide Apply;
    hide EventOf;
    hide Expected;
    if diff == [] {
      assert Events(t, prev, cur, diff) == [];
    } else {
      var front, line := diff[..|diff|-1], diff[|diff|-1];
      BlindDiff(t, index, prev, cur, front, sid);
      var es := Events(t, prev, cur, front);
      assert LineFits(prev, cur, line);
      ListedMore(diff, sid.path);
      if t.language(line.path).None? {
        assert Events(t, prev, cur, diff) == es + [] == es;
      } else {
        ReplayMore(t, index, es, EventOf(t, prev, cur, line));
        if line.path == sid.path {
          BlindEvent(t, Replay(t, index, es), prev, cur, line, sid);
        } else {
          EventIsLocal(t, Replay(t, index, es), prev, cur, line, sid);
        }
      }
    }
  }

  lemma ListedMore(diff: seq<DiffLine>, p: Path)
    requires diff != []
    ensures Listed(diff, p) <==> Listed(diff[..|diff|-1], p) || diff[|diff|-1].path == p
  {
  }

  // ---- Whole histories ----

  lemma {:induction false} RescanMovesFiles(t: Tools, index: Index, c: Commit, files: seq<Path>, sid: StableId)
    requires forall p :: p in files ==> p in c
    requires At(index, sid) == None || At(index, sid) == Expected(t, c, sid)
    ensures At(Replay(t, index, Rescans(t, c, files)), sid)
         == if sid.path in files then Expected(t, c, sid) else At(index, sid)
    decreases |files|
  {
    hide Apply;
    hide Expected;
    hide RescanOf;
    if files == [] {
      assert Rescans(t, c, files) == [];
    } else {
      var front, path := files[..|files|-1], files[|files|-1];
      RescanMovesFiles(t, index, c, front, sid);
      var es, e := Rescans(t, c, front), RescanOf(t, c, path);
      assert files == front + [path] && path in files;
      if t.language(path).None? {
        assert Rescans(t, c, files) == es + [] == es;
        if sid.path == path { UnsupportedExpectsNothing(t, c, sid); }
      } else {
        ReplayMore(t, index, es, e);
        RescanOne(t, Replay(t, index, es), c, path, sid);
      }
    }
  }

  lemma UnsupportedExpectsNothing(t: Tools, c: Commit, sid: StableId)
    requires t.language(sid.path).None?
    ensures Expected(t, c, sid) == None
  {
  }

  lemma RescanOne(t: Tools, index: Index, c: Commit, path: Path, sid: StableId)
    requires path in c
    requires sid.path == path ==> At(index, sid) == Expected(t, c, sid) || At(index, sid) == None
    ensures At(Apply(t, index, RescanOf(t, c, path)), sid)
         == if sid.path == path then Expected(t, c, sid) else At(index, sid)
  {
    if sid.path != path { ParsedInFile(t, path, c[path], sid); }
  }

  /** Python files of any commit parse. */
  ghost predicate PythonParses(t: Tools, c: Commit) {
    forall p :: p in c && t.language(p) == Some(Python) ==> t.extract(Python, c[p]).Some?
  }

  /** Commits after the first, each with the lines of its diff against the one before. */
  ghost predicate IsHistory(t: Tools, commits: seq<Commit>, diffs: seq<seq<DiffLine>>) {
    && |commits| > 0 && |diffs| == |commits| - 1
    && (forall i :: 0 <= i < |commits| ==> PythonParses(t, commits[i]))
    && (forall i :: 0 <= i < |diffs| ==> IsDiff(t, commits[i], commits[i+1], diffs[i]))
  }

  /** The index after a full rescan of the first commit and incremental processing of the first n diffs. */
  function Indexed(t: Tools, commits: seq<Commit>, files: seq<Path>, diffs: seq<seq<DiffLine>>, n: nat): Index
    requires |commits| > 0 && |diffs| == |commits| - 1 && n <= |diffs|
  {
    if n == 0 then Replay(t, map[], Rescans(t, commits[0], files))
    else Replay(t, Indexed(t, commits, files, diffs, n - 1), Events(t, commits[n-1], commits[n], diffs[n-1]))
  }

  /** What stays of a file that only additions update: its state when last added, over older remains. */
  function LastAdded(t: Tools, commits: seq<Commit>, n: nat, sid: StableId): Option<Hash>
    requires n < |commits|
  {
    if n == 0 then Expected(t, commits[0], sid)
    else if sid.path !in commits[n-1] && sid.path in commits[n] then
      Or(Expected(t, commits[n], sid), LastAdded(t, commits, n - 1, sid))
    else LastAdded(t, commits, n - 1, sid)
  }

  lemma FirstIndex(t: Tools, c: Commit, files: seq<Path>, sid: StableId)
    requires IsListing(t, c, files)
    ensures At(Replay(t, map[], Rescans(t, c, files)), sid) == Expected(t, c, sid)
  {
    RescanMovesFiles(t, map[], c, files, sid);
    if t.language(sid.path).None? { UnsupportedExpectsNothing(t, c, sid); }
  }

  /** Python files are as a parse of commit n has them, others as they were last added. */
  ghost predicate StateAfter(t: Tools, index: Index, commits: seq<Commit>, n: nat)
    requires n < |commits|
  {
    forall sid: StableId :: At(index, sid) == StateOf(t, commits, n, sid)
  }

  function StateOf(t: Tools, commits: seq<Commit>, n: nat, sid: StableId): Option<Hash>
    requires n < |commits|
  {
    if IsBlind(t, sid.path) then LastAdded(t, commits, n, sid) else Expected(t, commits[n], sid)
  }

  lemma StateStep(t: Tools, index: Index, commits: seq<Commit>, diff: seq<DiffLine>, n: nat, sid: StableId)
    requires 0 < n < |commits| && StateAfter(t, index, commits, n - 1)
    requires PythonParses(t, commits[n-1]) && PythonParses(t, commits[n]) && IsDiff(t, commits[n-1], commits[n], diff)
    ensures At(Replay(t, index, Events(t, commits[n-1], commits[n], diff)), sid) == StateOf(t, commits, n, sid)
  {
    hide Expected;
    hide IsBlind;
    hide PythonParses;
    hide IsDiff;
    assert At(index, sid) == StateOf(t, commits, n - 1, sid);
    if !IsBlind(t, sid.path) {
      forall s: StableId | s.path == sid.path ensures At(index, s) == Expected(t, commits[n-1], s) {
        assert At(index, s) == StateOf(t, commits, n - 1, s);
      }
    }
    hide StateAfter;
    IndexStep(t, index, commits[n-1], commits[n], diff, sid);
    hide Replay;
    hide Events;
  }

  lemma {:induction false} IncrementalIndexIs(
    t: Tools, commits: seq<Commit>, files: seq<Path>, diffs: seq<seq<DiffLine>>, n: nat)
    requires IsHistory(t, commits, diffs) && IsListing(t, commits[0], files) && n <= |diffs|
    ensures StateAfter(t, Indexed(t, commits, files, diffs, n), commits, n)
  {
    hide IsListing;
    hide Replay;
    hide Events;
    hide Rescans;
    hide Expected;
    hide IsBlind;
    hide PythonParses;
    hide IsDiff;
    if n == 0 {
      forall sid ensures At(Indexed(t, commits, files, diffs, 0), sid) == StateOf(t, commits, 0, sid) {
        FirstIndex(t, commits[0], files, sid);
      }
    } else {
      IncrementalIndexIs(t, commits, files, diffs, n - 1);
      var index := Indexed(t, commits, files, diffs, n - 1);
      hide LastAdded;
      forall sid ensures At(Indexed(t, commits, files, diffs, n), sid) == StateOf(t, commits, n, sid) {
        StateStep(t, index, commits, diffs[n-1], n, sid);
      }
    }
  }

  lemma IndexStep(t: Tools, index: Index, prev: Commit, cur: Commit, diff: seq<DiffLine>, sid: StableId)
    requires PythonParses(t, prev) && PythonParses(t, cur) && IsDiff(t, prev, cur, diff)
    requires !IsBlind(t, sid.path) ==> forall s: StableId :: s.path == sid.path ==> At(index, s) == Expected(t, prev, s)
    ensures At(Replay(t, index, Events(t, prev, cur, diff)), sid)
         == if !IsBlind(t, sid.path) then Expected(t, cur, sid)
            else if sid.path !in prev && sid.path in cur then Or(Expected(t, cur, sid), At(index, sid))
            else At(index, sid)
  {
    hide Expected;
    hide Replay;
    hide Events;
    if IsBlind(t, sid.path) {
      BlindDiff(t, index, prev, cur, diff, sid);
      BlindLines(prev, cur, diff, sid.path);
      assert sid.path !in prev && sid.path in cur ==> At(prev, sid.path) != At(cur, sid.path);
    } else {
      CommitReachesFile(t, index, prev, cur, diff, sid.path);
    }
  }

  lemma BlindLines(prev: Commit, cur: Commit, diff: seq<DiffLine>, p: Path)
    requires forall i :: 0 <= i < |diff| ==> LineFits(prev, cur, diff[i])
    ensures Listed(diff, p) && p !in prev ==> p in cur
  {
  }

  /**
   Over any history the index equals a parse of the current commit from scratch exactly when every file the watcher does
   not parse still has the nodes and hashes it had when it was last added.
   */
  lemma IncrementalIsFromScratchIff(
    t: Tools, commits: seq<Commit>, files: seq<Path>, diffs: seq<seq<DiffLine>>, n: nat)
    requires IsHistory(t, commits, diffs) && IsListing(t, commits[0], files) && n <= |diffs|
    ensures IndexOf(t, Indexed(t, commits, files, diffs, n), commits[n])
       <==> forall sid: StableId :: IsBlind(t, sid.path) ==>
              LastAdded(t, commits, n, sid) == Expected(t, commits[n], sid)
  {
    IncrementalIndexIs(t, commits, files, diffs, n);
    hide Indexed;
    hide Expected;
    hide LastAdded;
    hide IsBlind;
    var index := Indexed(t, commits, files, diffs, n);
    assert forall sid: StableId :: At(index, sid) == StateOf(t, commits, n, sid);
  }

  /** Without files of other languages the incremental index is the one a parse from scratch would give. */
  lemma IncrementalIsFromScratch(
    t: Tools, commits: seq<Commit>, files: seq<Path>, diffs: seq<seq<DiffLine>>, n: nat)
    requires IsHistory(t, commits, diffs) && IsListing(t, commits[0], files) && n <= |diffs|
    requires forall i, p :: 0 <= i <= n && p in commits[i] ==> !IsBlind(t, p)
    ensures IndexOf(t, Indexed(t, commits, files, diffs, n), commits[n])
  {
    forall sid: StableId | IsBlind(t, sid.path)
      ensures LastAdded(t, commits, n, sid) == Expected(t, commits[n], sid)
    {
      NeverThere(t, commits, n, sid);
    }
    IncrementalIsFromScratchIff(t, commits, files, diffs, n);
  }

  lemma {:induction false} NeverThere(t: Tools, commits: seq<Commit>, n: nat, sid: StableId)
    requires n < |commits| && forall i :: 0 <= i <= n ==> sid.path !in commits[i]
    ensures LastAdded(t, commits, n, sid) == None == Expected(t, commits[n], sid)
  {
    if n > 0 { NeverThere(t, commits, n - 1, sid); }
  }
}
