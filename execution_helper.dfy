// The server-side request handlers (cli_server/common/execution_helper.py): the commit payload and
// its header insertion, the received-file listing, file saving and deletion routes, and the
// software-update batch.

module ExecutionHelper {
  import opened Wrappers
  import opened Text
  import Rules
  import XmlUtils
  import opened WsManager
  import opened Workspace

  /** What a handler answers: a `Response(success, result)`, or an exception its `except` clause
      turned into a failed response whose text starts with `prefix` (the exception's own message
      is not modelled). */
  datatype Reply = Reply(success: bool, result: string) | Raised(prefix: string)

  /** A file path as its components below the server's base directory; `os.path.join` glues them.
      A path whose first component starts with "/" is absolute. */
  type Path = seq<string>

  /** A component that `os.path.join` treats as absolute. */
  predicate Absolute(c: string) { c != [] && c[0] == '/' }

  /** `os.path.join` of the components: one that starts with "/" discards every component before
      it (`PyJoinSuffix`). */
  function PyJoin(parts: Path): (r: Path)
    ensures |r| <= |parts|
    decreases |parts|
  {
    if parts == [] then []
    else if Absolute(parts[|parts| - 1]) then [parts[|parts| - 1]]
    else PyJoin(parts[..|parts| - 1]) + [parts[|parts| - 1]]
  }

  /** The joined path is the suffix of the components that starts at the last absolute one, or
      all of them when none is absolute. */
  lemma {:induction false} PyJoinSuffix(parts: Path)
    ensures var r := PyJoin(parts);
            && (forall j :: 0 <= j < |r| ==> r[j] == parts[|parts| - |r| + j])
            && (parts != [] ==> r != [])
            && (forall k :: 0 < k < |r| ==> !Absolute(r[k]))
            && (|r| < |parts| ==> Absolute(r[0]))
    decreases |parts|
  {
    if parts != [] && !Absolute(parts[|parts| - 1]) {
      var init := parts[..|parts| - 1];
      PyJoinSuffix(init);
      assert PyJoin(parts) == PyJoin(init) + [parts[|parts| - 1]];
    }
  }

  /** Components none of which is absolute are joined as they are. */
  lemma {:induction false} PyJoinRelative(parts: Path)
    requires forall k :: 0 <= k < |parts| ==> !Absolute(parts[k])
    ensures PyJoin(parts) == parts
    decreases |parts|
  {
    if parts != [] {
      assert parts[..|parts| - 1] + [parts[|parts| - 1]] == parts;
      PyJoinRelative(parts[..|parts| - 1]);
    }
  }

  /** An absolute component holds "/". */
  lemma AbsoluteHoldsSlash(c: string)
    ensures Absolute(c) ==> Contains(c, "/")
  {
    if Absolute(c) {
      assert c[0..1] == "/";
      assert OccursAt(c, "/", 0);
    }
  }

  /** `os.path.join(dir, name)` for a directory none of whose components is absolute: an absolute
      name replaces the directory. */
  function JoinName(dir: Path, name: string): Path
  {
    if Absolute(name) then [name] else dir + [name]
  }

  /** `JoinName` is `os.path.join` on such a directory. */
  lemma JoinNameIsPyJoin(dir: Path, name: string)
    requires forall k :: 0 <= k < |dir| ==> !Absolute(dir[k])
    ensures JoinName(dir, name) == PyJoin(dir + [name])
  {
    var parts := dir + [name];
    assert parts[..|parts| - 1] == dir && parts[|parts| - 1] == name;
    PyJoinRelative(dir);
  }


  /** A file the handler writes, with the text written. */
  datatype Written = Written(path: Path, content: string)

  const Sep: string := "||"

  // ----- commit: the payload -----

  /** `command_type||filename||message||translate_flag||translate_mode||xml_base64` */
  datatype CommitRequest = CommitRequest(commandType: string, filename: string, message: string,
                                         translateFlag: string, translateMode: string, xmlBase64: string)

  function Fields(c: CommitRequest): seq<string>
  {
    [c.commandType, c.filename, c.message, c.translateFlag, c.translateMode, c.xmlBase64]
  }

  /** `arg.split("||", 5)` unpacked into six names: fewer pieces raise ValueError, and the last
      field keeps any further separators. */
  function ParseCommit(arg: string): (r: Option<CommitRequest>)
    ensures r.Some? ==> Join(Fields(r.value), Sep) == arg
    ensures r.Some? ==> forall k :: 0 <= k < 5 ==> !Contains(Fields(r.value)[k], Sep)
    ensures r.None? ==> exists ps :: |ps| < 6 && Join(ps, Sep) == arg && forall k :: 0 <= k < |ps| ==> !Contains(ps[k], Sep)
  {
    var ps := SplitN(arg, Sep, 5);
    if |ps| == 6 then
      var c := CommitRequest(ps[0], ps[1], ps[2], ps[3], ps[4], ps[5]);
      SixPieces(arg, c);
      Some(c)
    else
      FewPieces(arg);
      None
  }

  /** Six pieces: the six names join back to the argument, and only the last holds separators. */
  lemma SixPieces(arg: string, c: CommitRequest)
    requires var ps := SplitN(arg, Sep, 5); |ps| == 6 && c == CommitRequest(ps[0], ps[1], ps[2], ps[3], ps[4], ps[5])
    ensures Join(Fields(c), Sep) == arg && forall k :: 0 <= k < 5 ==> !Contains(Fields(c)[k], Sep)
  {
    var ps := SplitN(arg, Sep, 5);
    assert Fields(c) == ps by {
      assert Fields(c) == [ps[0], ps[1], ps[2], ps[3], ps[4], ps[5]];
    }
    SplitFacts(arg);
  }

  /** Fewer than six pieces: the argument is a join of fewer than six separator-free names. */
  lemma FewPieces(arg: string)
    requires |SplitN(arg, Sep, 5)| < 6
    ensures exists ps :: |ps| < 6 && Join(ps, Sep) == arg && forall k :: 0 <= k < |ps| ==> !Contains(ps[k], Sep)
  {
    var ps := SplitN(arg, Sep, 5);
    SplitFacts(arg);
    assert |ps| < 6 && Join(ps, Sep) == arg && forall k :: 0 <= k < |ps| ==> !Contains(ps[k], Sep);
  }

  lemma SplitFacts(arg: string)
    ensures var ps := SplitN(arg, Sep, 5);
            Join(ps, Sep) == arg && (forall k :: 0 <= k < |ps| - 1 ==> !Contains(ps[k], Sep))
            && (|ps| <= 5 ==> !Contains(ps[|ps| - 1], Sep))
    ensures var ps := SplitN(arg, Sep, 5); |ps| <= 5 ==> forall k :: 0 <= k < |ps| ==> !Contains(ps[k], Sep)
  {
    PiecesFacts(arg, Sep, 5);
  }

  lemma PiecesFacts(s: string, sep: string, n: nat)
    requires |sep| > 0
    ensures var ps := SplitN(s, sep, n);
            Join(ps, sep) == s && (forall k :: 0 <= k < |ps| - 1 ==> !Contains(ps[k], sep))
            && (|ps| <= n ==> !Contains(ps[|ps| - 1], sep))
    ensures var ps := SplitN(s, sep, n); |ps| <= n ==> forall k :: 0 <= k < |ps| ==> !Contains(ps[k], sep)
  {
    JoinSplitN(s, sep, n);
    SplitNPiecesFree(s, sep, n);
  }

  // ----- commit: the header block -----

  /** The first line containing `pat`, searched from line `k`. */
  function FirstWithFrom(lines: seq<string>, pat: string, k: nat): (r: Option<nat>)
    requires k <= |lines|
    ensures r.Some? ==> k <= r.value < |lines| && Contains(lines[r.value], pat)
    ensures r.Some? ==> forall j :: k <= j < r.value ==> !Contains(lines[j], pat)
    ensures r.None? ==> forall j :: k <= j < |lines| ==> !Contains(lines[j], pat)
    decreases |lines| - k
  {
    if k == |lines| then None
    else if Contains(lines[k], pat) then Some(k)
    else FirstWithFrom(lines, pat, k + 1)
  }

  function FirstWith(lines: seq<string>, pat: string): Option<nat>
  {
    FirstWithFrom(lines, pat, 0)
  }

  /** `handle_commit`'s insertion: with no line holding "<header>", the block goes right after the
      first line holding "<cmData"; otherwise the lines stay as they are. */
  function WithHeader(lines: seq<string>, block: string): seq<string>
  {
    if FirstWith(lines, "<header>").Some? then lines
    else match FirstWith(lines, "<cmData")
      case None => lines
      case Some(i) => lines[..i + 1] + [block] + lines[i + 1..]
  }

  /** The block with the creation time stamp. */
  function HeaderBlock(ts: string): string
  {
    "  <header>" + "\n                <log action=\"create\" dateTime=\"" + ts + "\"/>\n            </header>"
  }

  lemma HeaderBlockIsHeader(ts: string)
    ensures Contains(HeaderBlock(ts), "<header>")
  {
    var h := HeaderBlock(ts);
    var a := "  <header>";
    assert h[..10] == a;
    assert h[2..10] == a[2..];
    assert OccursAt(h, "<header>", 2);
  }

  /** The loop of `handle_commit` that finds the first line holding `pat`. */
  method FindFirstWith(lines: seq<string>, pat: string) returns (r: Option<nat>)
    ensures r == FirstWith(lines, pat)
  {
    var k := 0;
    while k < |lines|
      invariant 0 <= k <= |lines|
      invariant FirstWith(lines, pat) == FirstWithFrom(lines, pat, k)
    {
      if Contains(lines[k], pat) {
        return Some(k);
      }
      k := k + 1;
    }
    return None;
  }

  /** `body_lines.insert(i + 1, header_block)` under the `any(...)` guard. */
  method InsertHeader(lines: seq<string>, block: string) returns (out: seq<string>)
    ensures out == WithHeader(lines, block)
  {
    out := lines;
    var h := FindFirstWith(lines, "<header>");
    if h.None? {
      var c := FindFirstWith(lines, "<cmData");
      if c.Some? {
        var i := c.value;
        out := lines[..i + 1] + [block] + lines[i + 1..];
      }
    }
  }

  /** The insertion adds exactly the block right after the first "<cmData" line, or nothing, and
      never moves the first line. */
  lemma WithHeaderShape(lines: seq<string>, block: string)
    ensures var r := WithHeader(lines, block);
            (FirstWith(lines, "<header>").None? && FirstWith(lines, "<cmData").Some? ==>
               var i := FirstWith(lines, "<cmData").value;
               |r| == |lines| + 1 && r[..i + 1] == lines[..i + 1] && r[i + 1] == block && r[i + 2..] == lines[i + 1..])
            && (FirstWith(lines, "<header>").Some? || FirstWith(lines, "<cmData").None? ==> r == lines)
            && (lines != [] ==> r[0] == lines[0])
  {
    if FirstWith(lines, "<header>").None? && FirstWith(lines, "<cmData").Some? {
      var i := FirstWith(lines, "<cmData").value;
      var r := lines[..i + 1] + [block] + lines[i + 1..];
      assert r[..i + 1] == lines[..i + 1];
      assert r[i + 2..] == lines[i + 1..];
    }
  }

  /** A header block is inserted at most once: committing the result again adds nothing. */
  lemma WithHeaderIdempotent(lines: seq<string>, ts: string)
    ensures WithHeader(WithHeader(lines, HeaderBlock(ts)), HeaderBlock(ts)) == WithHeader(lines, HeaderBlock(ts))
  {
    var b := HeaderBlock(ts);
    var r := WithHeader(lines, b);
    if r != lines {
      WithHeaderShape(lines, b);
      var i := FirstWith(lines, "<cmData").value;
      HeaderBlockIsHeader(ts);
      assert Contains(r[i + 1], "<header>");
      assert FirstWith(r, "<header>").Some?;
    }
  }

  const XmlDecl: string := "<?xml version=\"1.0\" encoding=\"UTF-8\" standalone=\"yes\"?>"
  const RamlOpen: string := "<raml xmlns=\"raml21.xsd\" version=\"2.1\">"

  /** The lines `handle_commit` works on: blank lines removed, the text stripped and split. */
  function CommitLines(xml: string): seq<string>
  {
    SplitLines(Strip(XmlUtils.RemoveEmptyLines(xml)))
  }

  /** The body after the insertion: `body_lines` and `lines` are one list, so dropping the first two
      lines of a declared document drops them from the list that already holds the header. */
  function CommitBody(lines: seq<string>, ts: string): seq<string>
    requires lines != []
  {
    var withH := WithHeader(lines, HeaderBlock(ts));
    if StartsWith(Strip(lines[0]), "<?xml") then (if |withH| >= 2 then withH[2..] else []) else withH
  }

  /** The saved document: the standard declaration and `<raml>` line, then the body; an empty
      document raises IndexError on `lines[0]`. */
  function CommitXml(xml: string, ts: string): (r: Option<string>)
    ensures r.None? <==> CommitLines(xml) == []
    ensures r.Some? ==> r.value == XmlDecl + "\n" + RamlOpen + "\n" + Join(CommitBody(CommitLines(xml), ts), "\n")
  {
    var lines := CommitLines(xml);
    if lines == [] then None
    else Some(XmlDecl + "\n" + RamlOpen + "\n" + Join(CommitBody(lines, ts), "\n"))
  }

  /** The header block survives into the body exactly when it was inserted and the dropped
      declaration lines do not reach it: a declared document whose first "<cmData" line is its
      very first line loses the block again. */
  lemma CommitBodyHeader(lines: seq<string>, ts: string)
    requires lines != [] && FirstWith(lines, "<header>").None? && FirstWith(lines, "<cmData").Some?
    ensures var i := FirstWith(lines, "<cmData").value;
            var body := CommitBody(lines, ts);
            if StartsWith(Strip(lines[0]), "<?xml") then
              (i >= 1 ==> body[i - 1] == HeaderBlock(ts)) && (i == 0 ==> body == lines[1..])
            else body[i + 1] == HeaderBlock(ts)
  {
    WithHeaderShape(lines, HeaderBlock(ts));
    var i := FirstWith(lines, "<cmData").value;
    var withH := WithHeader(lines, HeaderBlock(ts));
    if StartsWith(Strip(lines[0]), "<?xml") && i == 0 {
      assert withH[2..] == lines[1..];
    }
  }

  /** What committing a payload does: a saved document and an optional `.meta.txt` next to it. */
  datatype CommitOutcome = CommitSaved(path: Path, xml: string, meta: Option<Written>) | CommitFailed

  /** `save_path.replace(".xml", ".meta.txt")`: the pattern holds no separator, so replacing in the
      joined path is replacing in every component. */
  function MetaPath(p: Path): (r: Path)
    ensures |r| == |p|
  {
    seq(|p|, k requires 0 <= k < |p| => ReplaceAll(p[k], ".xml", ".meta.txt"))
  }

  /** `handle_commit` for the workspace's `bts_id`: a malformed payload, undecodable text, an empty
      document or a missing `bts_id` all end in the `except` clause. */
  function CommitPlan(arg: string, decode: string -> Option<string>, btsId: Option<string>, ts: string): (r: CommitOutcome)
    ensures r.CommitSaved? <==>
              ParseCommit(arg).Some? && decode(ParseCommit(arg).value.xmlBase64).Some?
              && CommitXml(decode(ParseCommit(arg).value.xmlBase64).value, ts).Some? && btsId.Some?
    ensures r.CommitSaved? ==> r.path == PyJoin(["data", "received", btsId.value, ParseCommit(arg).value.filename])
    ensures r.CommitSaved? ==> (r.meta.Some? <==> ParseCommit(arg).value.message != "")
    ensures r.CommitSaved? && r.meta.Some? ==>
              r.meta.value == Written(MetaPath(r.path), Strip(ParseCommit(arg).value.message) + "\n")
  {
    match ParseCommit(arg)
    case None => CommitFailed
    case Some(c) =>
      match decode(c.xmlBase64)
      case None => CommitFailed
      case Some(xml) =>
        match CommitXml(xml, ts)
        case None => CommitFailed
        case Some(doc) =>
          if btsId.None? then CommitFailed
          else
            var path := PyJoin(["data", "received", btsId.value, c.filename]);
            CommitSaved(path, doc, if c.message != "" then Some(Written(MetaPath(path), Strip(c.message) + "\n")) else None)
  }

  const CommitError: string := "[서버 오류] "

  /** `handle_commit`: saves the document, records it as the workspace's `final_file` and answers
      with its path. Without an active workspace `ws.get` raises. */
  method HandleCommit(m: Manager, arg: string, decode: string -> Option<string>, ts: string)
    returns (reply: Reply, writes: seq<Written>)
    modifies m.activeWs
    ensures m.activeWs == null ==> reply == Raised(CommitError) && writes == []
    ensures m.activeWs != null ==>
              var plan := CommitPlan(arg, decode, old(m.activeWs.Get("bts_id")), ts);
              if plan.CommitFailed? then
                reply == Raised(CommitError) && writes == [] && m.activeWs.bts == old(m.activeWs.bts)
              else
                reply == Reply(true, Join(plan.path, "/")) && m.activeWs.bts == old(m.activeWs.bts)["final_file" := Some(Join(plan.path, "/"))]
                && writes == [Written(plan.path, plan.xml)] + (if plan.meta.Some? then [plan.meta.value] else [])
    ensures m.activeWs != null ==> SameRest(m.activeWs)
  {
    writes := [];
    var ws := m.GetWorkspace();
    if ws == null {
      return Raised(CommitError), [];
    }
    var plan := CommitPlan(arg, decode, ws.Get("bts_id"), ts);
    if plan.CommitFailed? {
      return Raised(CommitError), [];
    }
    writes := [Written(plan.path, plan.xml)];
    var shown := Join(plan.path, "/");
    ws.Set("final_file", Some(shown));
    if plan.meta.Some? {
      writes := writes + [plan.meta.value];
    }
    reply := Reply(true, shown);
  }

  // ----- show-glb: listing the received files -----

  /** One directory entry: its name, whether it is a regular file, and its modification time. */
  datatype FileEntry = FileEntry(name: string, isFile: bool, mtime: int)

  /** `ext||limit||sort`: "name" and "key" pick those orders, anything else newest first. */
  datatype SortKey = ByName | ByTaskKey | ByTime

  function SortKeyOf(s: string): SortKey
  {
    if s == "name" then ByName else if s == "key" then ByTaskKey else ByTime
  }

  /** The last position where `sub` occurs, searched below `k`. */
  function RFindBelow(s: string, sub: string, k: nat): (r: Option<nat>)
    ensures r.Some? ==> r.value < k && OccursAt(s, sub, r.value)
    ensures r.Some? ==> forall j :: r.value < j < k ==> !OccursAt(s, sub, j)
    ensures r.None? ==> forall j :: 0 <= j < k ==> !OccursAt(s, sub, j)
  {
    if k == 0 then None
    else if OccursAt(s, sub, k - 1) then Some(k - 1)
    else RFindBelow(s, sub, k - 1)
  }

  /** `extract_key`: the text after the last "__", or "" when there is none. */
  function TaskKey(name: string): string
  {
    match RFindBelow(name, "__", |name| + 1)
    case None => ""
    case Some(i) => name[i + 2..]
  }

  /** The key is the tail after the last "__" and holds no "__" of its own. */
  lemma TaskKeyTail(name: string)
    ensures !Contains(TaskKey(name), "__")
    ensures Contains(name, "__") ==> exists h :: name == h + "__" + TaskKey(name)
    ensures !Contains(name, "__") ==> TaskKey(name) == ""
  {
    match RFindBelow(name, "__", |name| + 1)
    case None =>
      assert !Contains(name, "__");
    case Some(i) =>
      SuffixFree(name, "__", i + 2);
      AroundOccurrence(name, "__", i);
  }

  /** The suffix filter of the listing loop: "xml" and "txt" keep their extension, any other
      `ext` keeps every regular file. */
  predicate Kept(ext: string, e: FileEntry)
  {
    && !(ext == "xml" && !EndsWith(e.name, ".xml"))
    && !(ext == "txt" && !EndsWith(e.name, ".txt"))
    && e.isFile
  }

  function KeptFiles(ext: string, dir: seq<FileEntry>): (r: seq<FileEntry>)
    ensures forall e :: e in r <==> e in dir && Kept(ext, e)
    ensures |r| <= |dir|
  {
    if dir == [] then []
    else if Kept(ext, dir[0]) then [dir[0]] + KeptFiles(ext, dir[1..])
    else KeptFiles(ext, dir[1..])
  }

  /** `a` sorts strictly before `b`. */
  predicate Before(k: SortKey, a: FileEntry, b: FileEntry)
  {
    match k
    case ByName => Rules.StrLess(a.name, b.name)
    case ByTaskKey => Rules.StrLess(TaskKey(a.name), TaskKey(b.name))
    case ByTime => a.mtime > b.mtime
  }

  lemma BeforeAsym(k: SortKey, a: FileEntry, b: FileEntry)
    ensures !(Before(k, a, b) && Before(k, b, a))
  {
    match k
    case ByName => Rules.StrLessAsym(a.name, b.name);
    case ByTaskKey => Rules.StrLessAsym(TaskKey(a.name), TaskKey(b.name));
    case ByTime =>
  }

  /** If `x` sorts before `a`, any `m` sorts after `x` or before `a`. */
  lemma BeforeSplit(k: SortKey, x: FileEntry, m: FileEntry, a: FileEntry)
    requires Before(k, x, a)
    ensures Before(k, x, m) || Before(k, m, a)
  {
    match k
    case ByName => Rules.StrLessSplit(x.name, m.name, a.name);
    case ByTaskKey => Rules.StrLessSplit(TaskKey(x.name), TaskKey(m.name), TaskKey(a.name));
    case ByTime =>
  }

  predicate SortedBy(k: SortKey, s: seq<FileEntry>)
  {
    forall i, j :: 0 <= i < j < |s| ==> !Before(k, s[j], s[i])
  }

  /** Insert `x` after every element it does not sort before (which keeps `list.sort` stable). */
  function InsertBy(k: SortKey, x: FileEntry, s: seq<FileEntry>): (r: seq<FileEntry>)
    ensures multiset(r) == multiset(s) + multiset{x}
    decreases |s|
  {
    if s == [] then [x]
    else if Before(k, x, s[0]) then [x] + s
    else
      assert s == [s[0]] + s[1..];
      [s[0]] + InsertBy(k, x, s[1..])
  }

  lemma {:induction false} InsertBySorted(k: SortKey, x: FileEntry, s: seq<FileEntry>)
    requires SortedBy(k, s)
    ensures SortedBy(k, InsertBy(k, x, s))
    decreases |s|
  {
    if s == [] {
    } else if Before(k, x, s[0]) {
      InsertFrontSorted(k, x, s);
    } else {
      InsertBySorted(k, x, s[1..]);
      assert s == [s[0]] + s[1..];
      InsertBehindSorted(k, x, s);
    }
  }

  /** An element that sorts before the head of a sorted sequence may go in front of it. */
  lemma InsertFrontSorted(k: SortKey, x: FileEntry, s: seq<FileEntry>)
    requires SortedBy(k, s) && s != [] && Before(k, x, s[0])
    ensures SortedBy(k, [x] + s)
  {
    forall j | 0 <= j < |s| ensures !Before(k, s[j], x) {
      if Before(k, s[j], x) {
        BeforeSplit(k, x, s[j], s[0]);
        BeforeAsym(k, x, s[j]);
      }
    }
    ConsSorted(k, x, s);
  }

  /** Inserting into the tail keeps every element at or after the head. */
  lemma InsertedNotBefore(k: SortKey, x: FileEntry, s: seq<FileEntry>)
    requires SortedBy(k, s) && s != [] && !Before(k, x, s[0])
    ensures forall j :: 0 <= j < |InsertBy(k, x, s[1..])| ==> !Before(k, InsertBy(k, x, s[1..])[j], s[0])
  {
    var t := InsertBy(k, x, s[1..]);
    forall j | 0 <= j < |t| ensures !Before(k, t[j], s[0]) {
      assert t[j] in multiset(t);
      if t[j] != x {
        assert t[j] in multiset(s[1..]);
        var q :| 0 <= q < |s[1..]| && s[1..][q] == t[j];
        assert s[q + 1] == t[j];
      }
    }
  }

  /** An element that does not sort before the head of a sorted sequence goes behind it. */
  lemma InsertBehindSorted(k: SortKey, x: FileEntry, s: seq<FileEntry>)
    requires SortedBy(k, s) && s != [] && !Before(k, x, s[0])
    requires SortedBy(k, InsertBy(k, x, s[1..]))
    ensures SortedBy(k, InsertBy(k, x, s))
  {
    var t := InsertBy(k, x, s[1..]);
    InsertedNotBefore(k, x, s);
    assert InsertBy(k, x, s) == [s[0]] + t;
    ConsSorted(k, s[0], t);
  }

  /** A sorted sequence stays sorted behind an element that none of it sorts before. */
  lemma ConsSorted(k: SortKey, a: FileEntry, t: seq<FileEntry>)
    requires SortedBy(k, t) && forall j :: 0 <= j < |t| ==> !Before(k, t[j], a)
    ensures SortedBy(k, [a] + t)
  {
    var r := [a] + t;
    forall i, j | 0 <= i < j < |r| ensures !Before(k, r[j], r[i]) {
      if i > 0 { assert r[i] == t[i - 1] && r[j] == t[j - 1]; }
      else { assert r[j] == t[j - 1]; }
    }
  }

  /** `files.sort(key=...)`: a stable sort in the chosen order. */
  function SortBy(k: SortKey, s: seq<FileEntry>): (r: seq<FileEntry>)
    ensures multiset(r) == multiset(s) && SortedBy(k, r)
    decreases |s|
  {
    if s == [] then []
    else
      assert s == s[..|s| - 1] + [s[|s| - 1]];
      var t := SortBy(k, s[..|s| - 1]);
      InsertBySorted(k, s[|s| - 1], t);
      InsertBy(k, s[|s| - 1], t)
  }

  function Names(fs: seq<FileEntry>): (r: seq<string>)
    ensures |r| == |fs| && forall k :: 0 <= k < |fs| ==> r[k] == fs[k].name
  {
    seq(|fs|, k requires 0 <= k < |fs| => fs[k].name)
  }

  /** The files `handle_show_glb` lists, or None when the payload raises (not three fields, or a
      limit that `int()` rejects). */
  function ShownFiles(arg: string, dir: seq<FileEntry>): Option<seq<FileEntry>>
  {
    var ps := Split(arg, Sep);
    if |ps| != 3 then None
    else match ParseInt(ps[1])
      case None => None
      case Some(limit) =>
        var files := SortBy(SortKeyOf(ps[2]), KeptFiles(ps[0], dir));
        Some(if 0 < limit < |files| then files[..limit] else files)
  }

  const Empty: string := "(비어 있음)"

  /** `handle_show_glb`: the names one per line, the placeholder for an empty listing, and the
      error reply when the payload raises. */
  function ShowGlb(arg: string, dir: seq<FileEntry>): (r: Reply)
    ensures r.Raised? <==> ShownFiles(arg, dir).None?
    ensures r.Reply? ==> r.success && (ShownFiles(arg, dir).value == [] ==> r.result == Empty)
    ensures r.Reply? && |ShownFiles(arg, dir).value| == 1 && ShownFiles(arg, dir).value[0].name != "" ==>
              r.result == ShownFiles(arg, dir).value[0].name
    ensures r.Reply? && ShownFiles(arg, dir).value != [] &&
            (forall k :: 0 <= k < |ShownFiles(arg, dir).value| ==>
               ShownFiles(arg, dir).value[k].name != "" && '\n' !in ShownFiles(arg, dir).value[k].name) ==>
              Split(r.result, "\n") == Names(ShownFiles(arg, dir).value)
  {
    match ShownFiles(arg, dir)
    case None => Raised(CommitError)
    case Some(fs) =>
      JoinLines(Names(fs), '\n');
      var text := Join(Names(fs), "\n");
      Reply(true, if text == "" then Empty else text)
  }

  /** The listing holds only kept regular files, in the requested order, and is the first `limit`
      of all of them when `limit` is positive, all of them otherwise. */
  lemma ShownFilesSpec(arg: string, dir: seq<FileEntry>)
    requires ShownFiles(arg, dir).Some?
    ensures var ps := Split(arg, Sep);
            var fs := ShownFiles(arg, dir).value;
            var all := KeptFiles(ps[0], dir);
            var limit := ParseInt(ps[1]).value;
            && SortedBy(SortKeyOf(ps[2]), fs)
            && (forall e :: e in fs ==> e in dir && Kept(ps[0], e))
            && (limit > 0 ==> |fs| == if limit < |all| then limit else |all|)
            && (limit <= 0 ==> multiset(fs) == multiset(all))
  {
    var ps := Split(arg, Sep);
    var all := KeptFiles(ps[0], dir);
    var files := SortBy(SortKeyOf(ps[2]), all);
    var limit := ParseInt(ps[1]).value;
    var fs := ShownFiles(arg, dir).value;
    assert |files| == |all| by {
      assert |multiset(files)| == |multiset(all)|;
    }
    forall e | e in fs ensures e in dir && Kept(ps[0], e) {
      assert e in multiset(files);
      assert e in multiset(all);
    }
  }

  // ----- saveFile -----

  /** `purpose_dirs` and `use_date_dir`. */
  function PurposeDir(purpose: string): Option<(string, bool)>
  {
    if purpose == "log" then Some(("logs", true))
    else if purpose == "autocomm" then Some(("autocomm", true))
    else if purpose == "rulebook" then Some(("rulebook", false))
    else if purpose == "cli" then Some(("scripts", true))
    else if purpose == "cfgTmpl" then Some(("scripts", false))
    else None
  }

  /** How the content is written: bytes, appended text, or overwritten text. */
  datatype WriteMode = Binary | Append | Overwrite

  /** What is written: the decoded bytes as they are, or their UTF-8 text. */
  datatype FileContent = FileBytes(bytes: seq<bv8>) | FileText(text: string)

  /** `SaveRaised.truncated` is the file `open` had already created or, in "w" mode, emptied, with its mode, when
      the handler raised: only a text name whose bytes are not UTF-8 gets that far. */
  datatype SaveOutcome =
    | SaveTo(path: Path, mode: WriteMode, content: FileContent)
    | SaveRejected(reason: string)
    | SaveRaised(truncated: Option<(Path, WriteMode)>)

  /** `filename.lower().endswith((".xlsx", ".xls", ".zip"))` */
  predicate IsBinaryName(filename: string)
  {
    var l := Lower(filename);
    EndsWith(l, ".xlsx") || EndsWith(l, ".xls") || EndsWith(l, ".zip")
  }

  /** The directory a name is saved in: below the purpose's directory as it is when the name holds
      "/" or the purpose uses no day's directory, and in the day's directory otherwise. */
  function SaveDir(sub: string, dated: bool, filename: string, date: string): Path
  {
    if Contains(filename, "/") || !dated then ["data", sub] else ["data", sub, date]
  }

  /** `handle_save_file` for the day `date`. `b64` is `base64.b64decode` (None when it raises) and
      `utf8` is `bytes.decode("utf-8")`. The payload needs exactly three fields; the content is
      base64-decoded before the purpose is looked up; a known purpose places the name with
      `os.path.join` (an absolute name replaces the directory); a binary name is written as the
      decoded bytes, any other name as their UTF-8 text. The text file is opened before the bytes
      are decoded, so bytes that are not UTF-8 raise after `open` has created it or, in "w" mode, emptied it. */
  function SaveFile(payload: string, b64: string -> Option<seq<bv8>>, utf8: seq<bv8> -> Option<string>,
                    date: string): (r: SaveOutcome)
    ensures r.SaveTo? ==> |SplitN(payload, Sep, 3)| == 3 && PurposeDir(SplitN(payload, Sep, 3)[0]).Some?
    ensures r.SaveTo? ==>
              var ps := SplitN(payload, Sep, 3);
              var (sub, dated) := PurposeDir(ps[0]).value;
              && (Absolute(ps[1]) ==> r.path == [ps[1]])
              && (!Absolute(ps[1]) ==>
                    r.path == if Contains(ps[1], "/") || !dated then ["data", sub, ps[1]] else ["data", sub, date, ps[1]])
              && (r.mode == Binary <==> IsBinaryName(ps[1]))
              && (r.mode == Append <==> !IsBinaryName(ps[1]) && ps[0] == "log")
    ensures |SplitN(payload, Sep, 3)| != 3 ==> r == SaveRejected("[handle_save_file] 잘못된 payload 형식")
    ensures r.SaveTo? ==>
              var ps := SplitN(payload, Sep, 3);
              b64(ps[2]).Some?
              && (IsBinaryName(ps[1]) ==> r.content == FileBytes(b64(ps[2]).value))
              && (!IsBinaryName(ps[1]) ==> r.content.FileText? && utf8(b64(ps[2]).value) == Some(r.content.text))
    ensures |SplitN(payload, Sep, 3)| == 3 ==>
              var ps := SplitN(payload, Sep, 3);
              && (b64(ps[2]).None? ==> r == SaveRaised(None))
              && (b64(ps[2]).Some? && PurposeDir(ps[0]).None? ==>
                    r == SaveRejected("[handle_save_file] 정의되지 않은 purpose: " + ps[0]))
              && (b64(ps[2]).Some? && PurposeDir(ps[0]).Some? && IsBinaryName(ps[1]) ==> r.SaveTo?)
              && (b64(ps[2]).Some? && PurposeDir(ps[0]).Some? && !IsBinaryName(ps[1]) ==>
                    (r.SaveTo? <==> utf8(b64(ps[2]).value).Some?) && (r.SaveTo? || r.SaveRaised?))
    ensures r.SaveRaised? && r.truncated.Some? ==>
              var ps := SplitN(payload, Sep, 3);
              && |ps| == 3 && b64(ps[2]).Some? && PurposeDir(ps[0]).Some?
              && !IsBinaryName(ps[1]) && utf8(b64(ps[2]).value).None?
              && r.truncated.value.1 == (if ps[0] == "log" then Append else Overwrite)
              && var (sub, dated) := PurposeDir(ps[0]).value;
                 && (Absolute(ps[1]) ==> r.truncated.value.0 == [ps[1]])
                 && (!Absolute(ps[1]) ==>
                       r.truncated.value.0 == if Contains(ps[1], "/") || !dated then ["data", sub, ps[1]] else ["data", sub, date, ps[1]])
    ensures (|SplitN(payload, Sep, 3)| == 3 && b64(SplitN(payload, Sep, 3)[2]).Some?
             && PurposeDir(SplitN(payload, Sep, 3)[0]).Some? && !IsBinaryName(SplitN(payload, Sep, 3)[1])
             && utf8(b64(SplitN(payload, Sep, 3)[2]).value).None?) ==> r.SaveRaised? && r.truncated.Some?
  {
    var ps := SplitN(payload, Sep, 3);
    if |ps| != 3 then SaveRejected("[handle_save_file] 잘못된 payload 형식")
    else
      var purpose, filename := ps[0], ps[1];
      match b64(ps[2])
      case None => SaveRaised(None)
      case Some(bytes) =>
        match PurposeDir(purpose)
        case None => SaveRejected("[handle_save_file] 정의되지 않은 purpose: " + purpose)
        case Some(pd) =>
          var path := if Absolute(filename) then [filename]
                      else if Contains(filename, "/") || !pd.1 then ["data", pd.0, filename]
                      else ["data", pd.0, date, filename];
          if IsBinaryName(filename) then SaveTo(path, Binary, FileBytes(bytes))
          else
            var mode := if purpose == "log" then Append else Overwrite;
            match utf8(bytes)
            case None => SaveRaised(Some((path, mode)))
            case Some(text) => SaveTo(path, mode, FileText(text))
  }

  /** The save path is `os.path.join` of the save directory and the name, the day being the digits
      `strftime` gives and so never absolute. */
  lemma SavePathJoined(payload: string, b64: string -> Option<seq<bv8>>, utf8: seq<bv8> -> Option<string>, date: string)
    requires SaveFile(payload, b64, utf8, date).SaveTo? && !Absolute(date)
    ensures var ps := SplitN(payload, Sep, 3);
            var (sub, dated) := PurposeDir(ps[0]).value;
            SaveFile(payload, b64, utf8, date).path == PyJoin(SaveDir(sub, dated, ps[1], date) + [ps[1]])
  {
    var ps := SplitN(payload, Sep, 3);
    var (sub, dated) := PurposeDir(ps[0]).value;
    assert sub in {"logs", "autocomm", "rulebook", "scripts"};
    assert !Absolute(sub);
    SaveDirJoin(sub, dated, ps[1], date);
  }

  /** Joining the save directory, none of whose components is absolute, and the name. */
  lemma SaveDirJoin(sub: string, dated: bool, name: string, date: string)
    requires !Absolute(sub) && !Absolute(date)
    ensures PyJoin(SaveDir(sub, dated, name, date) + [name])
            == if Absolute(name) then [name]
               else if Contains(name, "/") || !dated then ["data", sub, name]
               else ["data", sub, date, name]
  {
    var dir := SaveDir(sub, dated, name, date);
    assert !Absolute("data");
    if Contains(name, "/") || !dated {
      assert dir == ["data", sub];
      assert dir + [name] == ["data", sub, name];
    } else {
      assert dir == ["data", sub, date];
      assert dir + [name] == ["data", sub, date, name];
    }
    JoinNameIsPyJoin(dir, name);
  }

  /** Only the five purposes are saved; logs, auto-commissioning files and CLI scripts go into the
      day's directory unless the name holds "/". */
  lemma SavePurposes(payload: string, b64: string -> Option<seq<bv8>>, utf8: seq<bv8> -> Option<string>, date: string)
    requires |SplitN(payload, Sep, 3)| == 3 && b64(SplitN(payload, Sep, 3)[2]).Some?
    requires IsBinaryName(SplitN(payload, Sep, 3)[1]) || utf8(b64(SplitN(payload, Sep, 3)[2]).value).Some?
    ensures var ps := SplitN(payload, Sep, 3);
            var r := SaveFile(payload, b64, utf8, date);
            && (r.SaveTo? <==> ps[0] in {"log", "autocomm", "rulebook", "cli", "cfgTmpl"})
            && (r.SaveTo? ==> (|r.path| == 4 <==> !Contains(ps[1], "/") && ps[0] in {"log", "autocomm", "cli"}))
  {
    var ps := SplitN(payload, Sep, 3);
    var r := SaveFile(payload, b64, utf8, date);
    assert PurposeDir(ps[0]).Some? <==> ps[0] in {"log", "autocomm", "rulebook", "cli", "cfgTmpl"};
    if r.SaveTo? {
      assert PurposeDir(ps[0]).value.1 <==> ps[0] in {"log", "autocomm", "cli"};
      AbsoluteHoldsSlash(ps[1]);
    }
  }

  /** A text upload whose bytes are not UTF-8 has already opened (created when missing, emptied when overwriting) exactly
      the file, in exactly the mode, that the same upload with decodable bytes would have written. */
  lemma OpenedBeforeDecode(payload: string, b64: string -> Option<seq<bv8>>, utf8: seq<bv8> -> Option<string>,
                           utf8': seq<bv8> -> Option<string>, date: string)
    requires SaveFile(payload, b64, utf8, date).SaveRaised?
    requires SaveFile(payload, b64, utf8', date).SaveTo?
    ensures var r, r' := SaveFile(payload, b64, utf8, date), SaveFile(payload, b64, utf8', date);
            r.truncated == Some((r'.path, r'.mode))
  {
    var ps := SplitN(payload, Sep, 3);
    assert b64(ps[2]).Some? && PurposeDir(ps[0]).Some?;
    assert !IsBinaryName(ps[1]);
  }

  /** The UTF-8 step only matters for a text name under a known purpose: a binary upload and an
      unknown purpose are answered the same whatever the bytes decode to. */
  lemma SaveUtf8Irrelevant(payload: string, b64: string -> Option<seq<bv8>>, utf8: seq<bv8> -> Option<string>,
                           utf8': seq<bv8> -> Option<string>, date: string)
    requires |SplitN(payload, Sep, 3)| == 3
    requires IsBinaryName(SplitN(payload, Sep, 3)[1]) || PurposeDir(SplitN(payload, Sep, 3)[0]).None?
    ensures SaveFile(payload, b64, utf8, date) == SaveFile(payload, b64, utf8', date)
  {
  }

  // ----- deleteFile -----

  /** What `os.path.exists` and `os.path.isfile` see at a path: nothing, a regular file, or
      something else (a directory), which `os.remove` refuses. */
  datatype PathKind = Absent | RegularFile | NotAFile

  datatype DeleteOutcome = Deleted(path: Path) | DeleteMissing(path: Path) | DeleteRejected(purpose: string) | DeleteRaised

  /** `handle_delete_file`: only the "autocomm" purpose may delete; the target is the name joined
      below data/autocomm with `os.path.join`; an existing regular file is removed, a missing one
      reported, and anything else that exists makes `os.remove` raise. */
  function DeleteFile(payload: string, kind: Path -> PathKind): (r: DeleteOutcome)
    ensures r.Deleted? || r.DeleteMissing? ==> SplitN(payload, Sep, 1)[0] == "autocomm"
    ensures |SplitN(payload, Sep, 1)| != 2 ==> r.DeleteRaised?
    ensures |SplitN(payload, Sep, 1)| == 2 && SplitN(payload, Sep, 1)[0] != "autocomm" ==>
              r == DeleteRejected(SplitN(payload, Sep, 1)[0])
    ensures |SplitN(payload, Sep, 1)| == 2 && SplitN(payload, Sep, 1)[0] == "autocomm" ==>
              var name := SplitN(payload, Sep, 1)[1];
              var path := if Absolute(name) then [name] else ["data", "autocomm", name];
              && (r.Deleted? <==> kind(path) == RegularFile)
              && (r.DeleteMissing? <==> kind(path) == Absent)
              && (r.DeleteRaised? <==> kind(path) == NotAFile)
              && (r.Deleted? || r.DeleteMissing? ==> r.path == path)
  {
    var ps := SplitN(payload, Sep, 1);
    if |ps| != 2 then DeleteRaised
    else if ps[0] != "autocomm" then DeleteRejected(ps[0])
    else
      var path := JoinName(["data", "autocomm"], ps[1]);
      assert ["data", "autocomm"] + [ps[1]] == ["data", "autocomm", ps[1]];
      match kind(path)
      case Absent => DeleteMissing(path)
      case RegularFile => Deleted(path)
      case NotAFile => DeleteRaised
  }

  /** The delete target is `os.path.join` of data/autocomm and the name. */
  lemma DeletePathJoined(payload: string, kind: Path -> PathKind)
    requires DeleteFile(payload, kind).Deleted? || DeleteFile(payload, kind).DeleteMissing?
    ensures DeleteFile(payload, kind).path == PyJoin(["data", "autocomm"] + [SplitN(payload, Sep, 1)[1]])
  {
    assert !Absolute("data");
    assert !Absolute("autocomm");
    JoinNameIsPyJoin(["data", "autocomm"], SplitN(payload, Sep, 1)[1]);
  }

  /** A plain file name saved for "autocomm" lands in the day's directory, while deleting that name
      targets the purpose's directory itself: the two paths never meet. */
  lemma AutocommDeleteTarget(save: string, del: string, b64: string -> Option<seq<bv8>>,
                             utf8: seq<bv8> -> Option<string>, date: string, kind: Path -> PathKind)
    requires |SplitN(save, Sep, 3)| == 3 && |SplitN(del, Sep, 1)| == 2
    requires SplitN(save, Sep, 3)[0] == "autocomm" && SplitN(del, Sep, 1)[0] == "autocomm"
    requires SplitN(save, Sep, 3)[1] == SplitN(del, Sep, 1)[1] && !Contains(SplitN(del, Sep, 1)[1], "/")
    requires b64(SplitN(save, Sep, 3)[2]).Some?
    requires IsBinaryName(SplitN(save, Sep, 3)[1]) || utf8(b64(SplitN(save, Sep, 3)[2]).value).Some?
    requires kind(["data", "autocomm", SplitN(del, Sep, 1)[1]]) != NotAFile
    ensures var sv := SaveFile(save, b64, utf8, date);
            var dl := DeleteFile(del, kind);
            && sv.SaveTo? && sv.path == ["data", "autocomm", date, SplitN(del, Sep, 1)[1]]
            && (dl.Deleted? || dl.DeleteMissing?) && dl.path == ["data", "autocomm", SplitN(del, Sep, 1)[1]]
            && sv.path != dl.path
  {
    AbsoluteHoldsSlash(SplitN(del, Sep, 1)[1]);
  }

  // ----- init-sw-ver -----

  datatype SwEntry = SwEntry(btsId: string, swVer: string)

  /** One element of the JSON result list; `raw` is present on a reported update failure. */
  datatype SwResult = SwResult(btsId: string, status: string, message: string, raw: Option<string>)

  function SwIds(es: seq<SwEntry>): (r: seq<string>)
    ensures |r| == |es| && forall k :: 0 <= k < |es| ==> r[k] == es[k].btsId
  {
    seq(|es|, k requires 0 <= k < |es| => es[k].btsId)
  }

  function Skipped(id: string): SwResult
  {
    SwResult(id, "skipped", "중복 건 생략", None)
  }

  /** The first entry of each base station goes on to the update, each later one is answered with a
      "skipped" result. */
  function Partition(es: seq<SwEntry>): (seq<SwEntry>, seq<SwResult>)
    decreases |es|
  {
    if es == [] then ([], [])
    else
      var (f, s) := Partition(es[..|es| - 1]);
      var e := es[|es| - 1];
      if e.btsId in SwIds(f) then (f, s + [Skipped(e.btsId)]) else (f + [e], s)
  }

  /** The dedup loop with its `seen_bts` set. */
  method FilterSwEntries(es: seq<SwEntry>) returns (filtered: seq<SwEntry>, results: seq<SwResult>)
    ensures (filtered, results) == Partition(es)
  {
    var seen: set<string> := {};
    filtered, results := [], [];
    for k := 0 to |es|
      invariant (filtered, results) == Partition(es[..k])
      invariant forall id :: id in seen <==> id in SwIds(filtered)
    {
      var e := es[k];
      assert es[..k + 1][..k] == es[..k];
      if e.btsId !in seen {
        assert SwIds(filtered + [e]) == SwIds(filtered) + [e.btsId];
        seen := seen + {e.btsId};
        filtered := filtered + [e];
      } else {
        results := results + [Skipped(e.btsId)];
      }
    }
    assert es[..|es|] == es;
  }

  lemma SwIdsSnoc(es: seq<SwEntry>, e: SwEntry)
    ensures SwIds(es + [e]) == SwIds(es) + [e.btsId]
  {
  }

  /** Every base station goes on to the update exactly once and in the order first met. */
  lemma {:induction false} PartitionIds(es: seq<SwEntry>)
    ensures SwIds(Partition(es).0) == Dedup(SwIds(es))
    decreases |es|
  {
    if es != [] {
      var n := |es| - 1;
      PartitionIds(es[..n]);
      var f := Partition(es[..n]).0;
      var e := es[n];
      assert Partition(es).0 == if e.btsId in SwIds(f) then f else f + [e];
      SwIdsSnoc(es[..n], e);
      assert es[..n] + [e] == es;
      DedupSnoc(SwIds(es[..n]), e.btsId);
      SwIdsSnoc(f, e);
    }
  }

  /** No entry is lost: each one either goes on to the update or yields a "skipped" result, and a
      skipped station is one that is being updated. */
  lemma {:induction false} PartitionSkipped(es: seq<SwEntry>)
    ensures |Partition(es).0| + |Partition(es).1| == |es|
    ensures var p := Partition(es);
            forall k :: 0 <= k < |p.1| ==> p.1[k].status == "skipped" && p.1[k].btsId in SwIds(p.0)
    decreases |es|
  {
    if es != [] {
      var n := |es| - 1;
      PartitionSkipped(es[..n]);
      var p := Partition(es[..n]);
      var e := es[n];
      if e.btsId !in SwIds(p.0) {
        var f := p.0 + [e];
        assert SwIds(f) == SwIds(p.0) + [e.btsId];
        forall k | 0 <= k < |p.1| ensures p.1[k].btsId in SwIds(f) {
          var q :| 0 <= q < |p.0| && SwIds(p.0)[q] == p.1[k].btsId;
          assert SwIds(f)[q] == p.1[k].btsId;
        }
      }
    }
  }

  // The failure report of a software update.

  function QuoteFrom(s: string, i: nat): (r: Option<nat>)
    requires i <= |s|
    ensures r.Some? ==> i <= r.value < |s| && s[r.value] == '"' && '"' !in s[i..r.value]
    ensures r.None? ==> '"' !in s[i..]
    decreases |s| - i
  {
    if i == |s| then None
    else if s[i] == '"' then Some(i)
    else
      var r := QuoteFrom(s, i + 1);
      assert s[i..] == [s[i]] + s[i + 1..];
      if r.Some? then assert s[i..r.value] == [s[i]] + s[i + 1..r.value]; r else r
  }

  /** `"key"\s*:\s*"([^"]*)"` matched at `i`: the quoted value and the end of the match. */
  function QuotedAt(s: string, key: string, i: nat): (r: Option<(string, nat)>)
    requires i <= |s|
    ensures r.Some? ==> i < r.value.1 <= |s| && '"' !in r.value.0
  {
    var q := "\"" + key + "\"";
    if !OccursAt(s, q, i) then None
    else
      var j := SkipSpaces(s, i + |q|);
      if j == |s| || s[j] != ':' then None
      else
        var k := SkipSpaces(s, j + 1);
        if k == |s| || s[k] != '"' then None
        else match QuoteFrom(s, k + 1)
          case None => None
          case Some(e) => Some((s[k + 1..e], e + 1))
  }

  /** `re.search(r'"requestStatus"\s*:\s*"failed"', result)` from position `i` on. */
  predicate FailedFrom(s: string, i: nat)
    requires i <= |s|
    decreases |s| - i
  {
    if i == |s| then false
    else
      var m := QuotedAt(s, "requestStatus", i);
      (m.Some? && m.value.0 == "failed") || FailedFrom(s, i + 1)
  }

  /** `re.findall(r'"requestMessage"\s*:\s*"([^"]*)"', result)` from position `i` on: the scan
      resumes after each match. */
  function MessagesFrom(s: string, i: nat): (r: seq<string>)
    requires i <= |s|
    ensures forall k :: 0 <= k < |r| ==> '"' !in r[k]
    decreases |s| - i
  {
    if i == |s| then []
    else match QuotedAt(s, "requestMessage", i)
      case Some((v, e)) => [v] + MessagesFrom(s, e)
      case None => MessagesFrom(s, i + 1)
  }

  const UnknownError: string := "알 수 없는 오류"

  /** What `softwareUpdate` gave: a text, some other object shown as `text`, or an exception with
      its message. */
  datatype SwReply = SwText(text: string) | SwObject(text: string) | SwRaised(error: string)

  /** `update_fn` for one entry, its outside calls given: the IP lookup, whether the software file
      exists and what the update gave. */
  function UpdateOutcome(e: SwEntry, ip: Option<string>, fileExists: bool, reply: SwReply): (r: SwResult)
    ensures r.btsId == e.btsId
    ensures r.status == "success" <==> Truthy(ip) && fileExists && !reply.SwRaised?
                                         && !(reply.SwText? && FailedFrom(reply.text, 0))
    ensures r.raw.Some? <==> Truthy(ip) && fileExists && reply.SwText? && FailedFrom(reply.text, 0)
    ensures r.raw.Some? ==> r.raw.value == reply.text
    ensures r.status != "success" ==> r.status == "fail"
  {
    if !Truthy(ip) then SwResult(e.btsId, "fail", "IP 조회 실패", None)
    else if !fileExists then SwResult(e.btsId, "fail", "파일 없음: " + Join(SwFile(e.swVer), "/"), None)
    else match reply
      case SwRaised(err) => SwResult(e.btsId, "fail", err, None)
      case SwObject(t) => SwResult(e.btsId, "success", t, None)
      case SwText(t) =>
        if FailedFrom(t, 0) then
          SwResult(e.btsId, "fail", "소프트웨어 업데이트 실패 - " + FailReason(t), Some(t))
        else SwResult(e.btsId, "success", t, None)
  }

  /** The last reported `requestMessage`, or the default text when there is none. */
  function FailReason(t: string): (r: string)
    ensures MessagesFrom(t, 0) != [] ==> r == MessagesFrom(t, 0)[|MessagesFrom(t, 0)| - 1]
    ensures MessagesFrom(t, 0) == [] ==> r == UnknownError
  {
    var ms := MessagesFrom(t, 0);
    if ms == [] then UnknownError else ms[|ms| - 1]
  }

  /** `_resolve_sw_file_path` */
  function SwFile(swVer: string): Path
  {
    ["data", "sw_files", swVer + ".zip"]
  }

  /** Every extracted message occurs in the text between two quotes. */
  lemma {:induction false} MessagesOccur(s: string, i: nat)
    requires i <= |s|
    ensures forall k :: 0 <= k < |MessagesFrom(s, i)| ==> Contains(s, "\"" + MessagesFrom(s, i)[k] + "\"")
    decreases |s| - i
  {
    if i < |s| {
      match QuotedAt(s, "requestMessage", i)
      case Some((v, e)) =>
        MessagesOccur(s, e);
        QuotedAtOccurs(s, "requestMessage", i);
      case None =>
        MessagesOccur(s, i + 1);
    }
  }

  lemma QuotedAtOccurs(s: string, key: string, i: nat)
    requires i <= |s| && QuotedAt(s, key, i).Some?
    ensures Contains(s, "\"" + QuotedAt(s, key, i).value.0 + "\"")
  {
    var q := "\"" + key + "\"";
    var j := SkipSpaces(s, i + |q|);
    var k := SkipSpaces(s, j + 1);
    var e := QuoteFrom(s, k + 1).value;
    QuotedSliceOccurs(s, k, e);
  }

  /** The text between two quotes occurs in `s` with its quotes. */
  lemma QuotedSliceOccurs(s: string, k: nat, e: nat)
    requires k < e < |s| && s[k] == '"' && s[e] == '"'
    ensures Contains(s, "\"" + s[k + 1..e] + "\"")
  {
    assert s[k..e + 1] == "\"" + s[k + 1..e] + "\"";
    assert OccursAt(s, "\"" + s[k + 1..e] + "\"", k);
  }

  /** The workspaces registered in `m`. */
  function Spaces(m: Manager): set<WorkSpace>
    reads m
  {
    set id | id in m.wsList && m.wsList[id] != null :: m.wsList[id] as WorkSpace
  }

  /** The station variables once `update_fn` has recorded the id and, when the lookup gave one,
      the IP. */
  function Stamped(vars: map<string, Option<string>>, id: string, ip: Option<string>): (r: map<string, Option<string>>)
    ensures r.Keys == vars.Keys + {"bts_id"} + (if Truthy(ip) then {"bts_ip"} else {})
    ensures Read(r, "bts_id") == Some(id) && (Truthy(ip) ==> Read(r, "bts_ip") == ip)
    ensures forall k :: k in vars && k != "bts_id" && (k != "bts_ip" || !Truthy(ip)) ==> r[k] == vars[k]
  {
    if Truthy(ip) then vars["bts_id" := Some(id)]["bts_ip" := ip] else vars["bts_id" := Some(id)]
  }

  /** The bookkeeping of `update_fn`: it activates the station's workspace, records its id and,
      once the lookup gave one, its IP; no other field and no other workspace changes. */
  method Activate(m: Manager, e: SwEntry, ip: Option<string>)
    modifies m, Spaces(m)
    ensures m.activeId == Some(e.btsId)
    ensures m.activeWs != null ==> m.activeWs.Get("bts_id") == Some(e.btsId)
    ensures m.activeWs != null && Truthy(ip) ==> m.activeWs.Get("bts_ip") == ip
    ensures forall w :: w in Spaces(m) ==> w in old(Spaces(m)) || fresh(w)
    ensures m.activeWs == null || m.activeWs in old(Spaces(m)) || fresh(m.activeWs)
    ensures e.btsId in old(m.wsList) ==> m.wsList == old(m.wsList) && m.activeWs == old(m.wsList[e.btsId])
    ensures e.btsId in old(m.wsList) && old(m.wsList[e.btsId]) != null ==>
              m.activeWs != null && m.activeWs.bts == Stamped(old(m.wsList[e.btsId].bts), e.btsId, ip)
    ensures e.btsId !in old(m.wsList) ==>
              m.activeWs != null && fresh(m.activeWs) && m.wsList == old(m.wsList)[e.btsId := m.activeWs]
              && m.activeWs.bts == Stamped(map["bts_id" := Some(e.btsId)], e.btsId, ip) && InitialRest(m.activeWs)
    ensures forall w :: w in old(Spaces(m)) && w != m.activeWs ==> w.bts == old(w.bts)
    ensures forall w :: w in old(Spaces(m)) ==> SameRest(w)
  {
    var _ := m.SetActive(e.btsId);
    var _ := m.Set("bts_id", Some(e.btsId));
    if Truthy(ip) {
      var _ := m.Set("bts_ip", ip);
    }
  }

  /** The `finally` clause: the active workspace forgets the station and its IP. */
  method ForgetStation(m: Manager)
    modifies m.activeWs
    ensures m.activeWs != null ==> m.activeWs.bts == old(m.activeWs.bts)["bts_ip" := None]["bts_id" := None]
    ensures m.activeWs != null ==> SameRest(m.activeWs)
  {
    var _ := m.Set("bts_ip", None);
    var _ := m.Set("bts_id", None);
  }

  function UpdateAll(f: seq<SwEntry>, ip: string -> Option<string>, fileExists: Path -> bool, update: SwEntry -> SwReply): (r: seq<SwResult>)
    ensures |r| == |f|
    ensures forall k :: 0 <= k < |f| ==> r[k] == Outcome(f[k], ip, fileExists, update)
    decreases |f|
  {
    if f == [] then [] else UpdateAll(f[..|f| - 1], ip, fileExists, update) + [Outcome(f[|f| - 1], ip, fileExists, update)]
  }

  lemma UpdateAllSnoc(f: seq<SwEntry>, k: nat, ip: string -> Option<string>, fileExists: Path -> bool, update: SwEntry -> SwReply)
    requires k < |f|
    ensures UpdateAll(f[..k + 1], ip, fileExists, update) == UpdateAll(f[..k], ip, fileExists, update) + [Outcome(f[k], ip, fileExists, update)]
  {
    assert f[..k + 1][..k] == f[..k];
  }

  /** `update_fn` on one entry with the outside calls applied. */
  function Outcome(e: SwEntry, ip: string -> Option<string>, fileExists: Path -> bool, update: SwEntry -> SwReply): SwResult
  {
    UpdateOutcome(e, ip(e.btsId), fileExists(SwFile(e.swVer)), update(e))
  }

  /** One more station's result appended to those gathered so far. */
  method RecordOutcome(skipped: seq<SwResult>, results: seq<SwResult>, filtered: seq<SwEntry>, k: nat,
                       ip: string -> Option<string>, fileExists: Path -> bool, update: SwEntry -> SwReply)
    returns (r: seq<SwResult>)
    requires k < |filtered| && results == skipped + UpdateAll(filtered[..k], ip, fileExists, update)
    ensures r == skipped + UpdateAll(filtered[..k + 1], ip, fileExists, update)
  {
    r := results + [Outcome(filtered[k], ip, fileExists, update)];
    UpdateAllSnoc(filtered, k, ip, fileExists, update);
  }

  /** `handle_init_sw_ver` with the updates run one after another in the order first met: the
      skipped results first, then one result per station; afterwards the workspace left active
      holds neither a station id nor an IP. */
  method HandleInitSwVer(m: Manager, es: seq<SwEntry>, ip: string -> Option<string>, fileExists: Path -> bool,
                         update: SwEntry -> SwReply)
    returns (results: seq<SwResult>)
    modifies m, m.activeWs, Spaces(m)
    ensures results == Partition(es).1 + UpdateAll(Partition(es).0, ip, fileExists, update)
    ensures Partition(es).0 != [] ==> m.activeId == Some(Partition(es).0[|Partition(es).0| - 1].btsId)
    ensures m.activeWs != null ==> m.activeWs.Get("bts_ip").None? && m.activeWs.Get("bts_id").None?
    ensures forall w :: w in old(Spaces(m)) ==> SameRest(w)
  {
    var filtered, skipped := FilterSwEntries(es);
    results := skipped;
    for k := 0 to |filtered|
      invariant results == skipped + UpdateAll(filtered[..k], ip, fileExists, update)
      invariant k > 0 ==> m.activeId == Some(filtered[k - 1].btsId)
      invariant forall w :: w in Spaces(m) ==> w in old(Spaces(m)) || fresh(w)
      invariant m.activeWs == null || m.activeWs == old(m.activeWs) || m.activeWs in old(Spaces(m)) || fresh(m.activeWs)
      invariant forall w :: w in old(Spaces(m)) ==> SameRest(w)
    {
      var e := filtered[k];
      Activate(m, e, ip(e.btsId));
      results := RecordOutcome(skipped, results, filtered, k, ip, fileExists, update);
    }
    assert filtered[..|filtered|] == filtered;
    ForgetStation(m);
  }
}
