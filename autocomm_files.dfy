// Naming and numbering of the generated `autocomm` script files (`_write_script_files`).

module AutocommFiles {
  import opened Wrappers
  import opened Text

  /** A generated BTS or cell script: DU id, lines, kind ("bts" / "cell-<id>"), failure flag
      and messages. */
  datatype ScriptEntry = ScriptEntry(du: string, script: seq<string>, kind: string, fail: bool, errors: seq<string>)

  /** A generated module script. */
  datatype ModEntry = ModEntry(du: string, script: seq<string>)

  /** A written file: its name and its whole text. */
  datatype OutFile = OutFile(name: string, content: string)

  function Dus(es: seq<ScriptEntry>): (r: seq<string>)
    ensures |r| == |es| && forall i :: 0 <= i < |es| ==> r[i] == es[i].du
  {
    seq(|es|, i requires 0 <= i < |es| => es[i].du)
  }

  function ModDus(ms: seq<ModEntry>): (r: seq<string>)
    ensures |r| == |ms| && forall i :: 0 <= i < |ms| ==> r[i] == ms[i].du
  {
    seq(|ms|, i requires 0 <= i < |ms| => ms[i].du)
  }

  /** Every DU id in the order the three steps meet them. */
  function AllDus(bts: seq<ScriptEntry>, cells: seq<ScriptEntry>, mods: seq<ModEntry>): seq<string>
  {
    Dus(bts) + Dus(cells) + ModDus(mods)
  }

  /** The sequence base of a DU: 100 times its position among the first appearances. */
  function Base(all: seq<string>, d: string): (r: nat)
    requires d in all
    ensures d in Dedup(all)
    ensures r >= 100 && r % 100 == 0 && r / 100 - 1 < |Dedup(all)| && Dedup(all)[r / 100 - 1] == d
    ensures d !in Dedup(all)[..r / 100 - 1]
  {
    100 * (IndexOf(Dedup(all), d) + 1)
  }

  function Postfix(fail: bool): string
  {
    if fail then "fail" else "pass"
  }

  /** `"\n".join(lines) + "\n"` */
  function Content(lines: seq<string>): string
  {
    Join(lines, "\n") + "\n"
  }

  /** `filename_type.split("-")[1]`; a kind without "-" raises IndexError. */
  predicate HasCellId(kind: string)
  {
    |Split(kind, "-")| >= 2
  }

  function CellNumber(all: seq<string>, cellDus: seq<string>, j: nat): nat
    requires j < |cellDus| && cellDus[j] in all
  {
    Base(all, cellDus[j]) + 1 + Count(cellDus[..j], cellDus[j])
  }

  function ModNumber(all: seq<string>, cellDus: seq<string>, modDus: seq<string>, j: nat): nat
    requires j < |modDus| && modDus[j] in all
  {
    Base(all, modDus[j]) + 1 + Count(cellDus, modDus[j]) + Count(modDus[..j], modDus[j])
  }

  /** `{seq_num}.DU{du}_x_initbts_{pass|fail}.cli` */
  function BtsFileName(num: nat, e: ScriptEntry): string
  {
    IntToString(num) + ".DU" + e.du + "_x_initbts_" + Postfix(e.fail) + ".cli"
  }

  function BtsName(all: seq<string>, e: ScriptEntry): string
    requires e.du in all
  {
    BtsFileName(Base(all, e.du), e)
  }

  /** `{seq_num}.DU{du}_Cell{cell id}_initcell_{pass|fail}.cli` */
  function CellFileName(num: nat, e: ScriptEntry): string
    requires HasCellId(e.kind)
  {
    IntToString(num) + ".DU" + e.du + "_Cell" + Split(e.kind, "-")[1] + "_initcell_" + Postfix(e.fail) + ".cli"
  }

  function CellName(all: seq<string>, cells: seq<ScriptEntry>, j: nat): string
    requires j < |cells| && cells[j].du in all && HasCellId(cells[j].kind)
  {
    CellFileName(CellNumber(all, Dus(cells), j), cells[j])
  }

  /** `{seq_num}.DU{du}_initmod_pass.cli` */
  function ModFileName(num: nat, du: string): string
  {
    IntToString(num) + ".DU" + du + "_initmod_pass.cli"
  }

  function ModName(all: seq<string>, cells: seq<ScriptEntry>, mods: seq<ModEntry>, j: nat): string
    requires j < |mods| && mods[j].du in all
  {
    ModFileName(ModNumber(all, Dus(cells), ModDus(mods), j), mods[j].du)
  }

  /** What the writer demands of its input: every cell kind carries an id after a "-". */
  predicate WellFormed(cells: seq<ScriptEntry>)
  {
    forall j :: 0 <= j < |cells| ==> HasCellId(cells[j].kind)
  }

  function BtsFiles(all: seq<string>, bts: seq<ScriptEntry>): (r: seq<OutFile>)
    requires forall i :: 0 <= i < |bts| ==> bts[i].du in all
    ensures |r| == |bts|
  {
    seq(|bts|, i requires 0 <= i < |bts| => OutFile(BtsName(all, bts[i]), Content(bts[i].script)))
  }

  function CellFiles(all: seq<string>, cells: seq<ScriptEntry>): (r: seq<OutFile>)
    requires WellFormed(cells) && forall j :: 0 <= j < |cells| ==> cells[j].du in all
    ensures |r| == |cells|
  {
    seq(|cells|, j requires 0 <= j < |cells| => OutFile(CellName(all, cells, j), Content(cells[j].script)))
  }

  function ModFiles(all: seq<string>, cells: seq<ScriptEntry>, mods: seq<ModEntry>): (r: seq<OutFile>)
    requires forall k :: 0 <= k < |mods| ==> mods[k].du in all
    ensures |r| == |mods|
  {
    seq(|mods|, k requires 0 <= k < |mods| => OutFile(ModName(all, cells, mods, k), Content(mods[k].script)))
  }

  lemma AllDusMembers(bts: seq<ScriptEntry>, cells: seq<ScriptEntry>, mods: seq<ModEntry>)
    ensures var all := AllDus(bts, cells, mods);
            (forall i :: 0 <= i < |bts| ==> bts[i].du in all)
            && (forall j :: 0 <= j < |cells| ==> cells[j].du in all)
            && (forall k :: 0 <= k < |mods| ==> mods[k].du in all)
  {
    var all := AllDus(bts, cells, mods);
    forall i | 0 <= i < |bts| ensures bts[i].du in all { assert all[i] == bts[i].du; }
    forall j | 0 <= j < |cells| ensures cells[j].du in all { assert all[|bts| + j] == cells[j].du; }
    forall k | 0 <= k < |mods| ensures mods[k].du in all { assert all[|bts| + |cells| + k] == mods[k].du; }
  }

  /** The files, in writing order: BTS, then cells, then modules. */
  function PlannedFiles(bts: seq<ScriptEntry>, cells: seq<ScriptEntry>, mods: seq<ModEntry>): (r: seq<OutFile>)
    requires WellFormed(cells)
    ensures |r| == |bts| + |cells| + |mods|
  {
    var all := AllDus(bts, cells, mods);
    AllDusMembers(bts, cells, mods);
    BtsFiles(all, bts) + CellFiles(all, cells) + ModFiles(all, cells, mods)
  }

  /** `[<file name>] <message>` for each message of one file. */
  function Tagged(name: string, lines: seq<string>): (r: seq<string>)
    ensures |r| == |lines|
  {
    seq(|lines|, k requires 0 <= k < |lines| => "[" + name + "] " + lines[k])
  }

  function Flat(xss: seq<seq<string>>): seq<string>
    decreases |xss|
  {
    if xss == [] then [] else Flat(xss[..|xss| - 1]) + xss[|xss| - 1]
  }

  function BtsTags(all: seq<string>, bts: seq<ScriptEntry>): (r: seq<seq<string>>)
    requires forall i :: 0 <= i < |bts| ==> bts[i].du in all
    ensures |r| == |bts|
  {
    seq(|bts|, i requires 0 <= i < |bts| => Tagged(BtsName(all, bts[i]), bts[i].errors))
  }

  function CellTags(all: seq<string>, cells: seq<ScriptEntry>): (r: seq<seq<string>>)
    requires WellFormed(cells) && forall j :: 0 <= j < |cells| ==> cells[j].du in all
    ensures |r| == |cells|
  {
    seq(|cells|, j requires 0 <= j < |cells| => Tagged(CellName(all, cells, j), cells[j].errors))
  }

  /** The collected messages: the BTS files' first, then the cell files'. */
  function PlannedErrors(bts: seq<ScriptEntry>, cells: seq<ScriptEntry>, mods: seq<ModEntry>): seq<string>
    requires WellFormed(cells)
  {
    var all := AllDus(bts, cells, mods);
    AllDusMembers(bts, cells, mods);
    Flat(BtsTags(all, bts)) + Flat(CellTags(all, cells))
  }

  /** The lines appended to `parse_errors.log`, each stamped with the time `now`. */
  function LogLines(now: string, errors: seq<string>): (r: seq<string>)
    ensures |r| == |errors|
  {
    seq(|errors|, k requires 0 <= k < |errors| => "[" + now + "] " + errors[k] + "\n")
  }

  // ----- the writer -----

  lemma FlatSnoc(xss: seq<seq<string>>, i: nat)
    requires i < |xss|
    ensures Flat(xss[..i + 1]) == Flat(xss[..i]) + xss[i]
  {
    assert xss[..i + 1][..i] == xss[..i];
  }

  lemma CountSnocPrefix(xs: seq<string>, j: nat, d: string)
    requires j < |xs|
    ensures Count(xs[..j + 1], d) == Count(xs[..j], d) + (if xs[j] == d then 1 else 0)
  {
    assert xs[..j + 1][..j] == xs[..j];
  }

  /** `du_seq_map` and `seq_counter` once the DU ids `seen` have been met. */
  ghost predicate SeqMapOk(m: map<string, nat>, seen: seq<string>, counter: nat)
  {
    && (forall d :: d in m <==> d in seen)
    && (forall d :: d in m ==> d in Dedup(seen) && m[d] == 100 * (IndexOf(Dedup(seen), d) + 1))
    && counter == |Dedup(seen)| + 1
  }

  /** A DU id met again keeps its base; a new one takes the next hundred. */
  lemma SeqMapStep(m: map<string, nat>, seen: seq<string>, counter: nat, d: string)
    requires SeqMapOk(m, seen, counter)
    ensures d in m ==> SeqMapOk(m, seen + [d], counter)
    ensures d !in m ==> SeqMapOk(m[d := counter * 100], seen + [d], counter + 1)
  {
    if d !in m {
      SeqMapNew(m, seen, counter, d);
    } else {
      SeqMapAgain(m, seen, counter, d);
    }
  }

  /** A DU id met again changes nothing. */
  lemma SeqMapAgain(m: map<string, nat>, seen: seq<string>, counter: nat, d: string)
    requires SeqMapOk(m, seen, counter) && d in m
    ensures SeqMapOk(m, seen + [d], counter)
  {
    assert d in seen;
    DedupSnoc(seen, d);
    assert Dedup(seen + [d]) == Dedup(seen);
    forall e ensures e in m <==> e in seen + [d] {
      assert e in seen + [d] <==> e in seen || e == d;
    }
  }

  /** A DU id met for the first time is recorded at the next hundred. */
  lemma SeqMapNew(m: map<string, nat>, seen: seq<string>, counter: nat, d: string)
    requires SeqMapOk(m, seen, counter) && d !in m
    ensures SeqMapOk(m[d := counter * 100], seen + [d], counter + 1)
  {
    DedupSnoc(seen, d);
    assert d !in seen;
    BasesSnoc(m, Dedup(seen), counter, d);
  }

  /** The bases stay put when a new DU id is appended after the others. */
  lemma BasesSnoc(m: map<string, nat>, dd: seq<string>, counter: nat, d: string)
    requires forall e :: e in m ==> e in dd && m[e] == 100 * (IndexOf(dd, e) + 1)
    requires d !in dd && counter == |dd| + 1
    ensures forall e :: e in m[d := counter * 100] ==>
              e in dd + [d] && m[d := counter * 100][e] == 100 * (IndexOf(dd + [d], e) + 1)
  {
    var dd' := dd + [d];
    assert dd'[..|dd|] == dd;
    var m' := m[d := counter * 100];
    forall e | e in m' ensures e in dd' && m'[e] == 100 * (IndexOf(dd', e) + 1) {
      if e == d {
        assert dd'[|dd|] == d;
        assert IndexOf(dd', d) == |dd|;
      } else {
        assert e in m;
        IndexOfPrefix(dd', |dd|, e);
      }
    }
  }

  /** The base recorded for a DU met in a prefix is its base over all DU ids. */
  lemma BaseOfSeen(all: seq<string>, seen: seq<string>, m: map<string, nat>, counter: nat, d: string)
    requires SeqMapOk(m, seen, counter) && d in m && |seen| <= |all| && all[..|seen|] == seen
    ensures d in all && Base(all, d) == m[d]
  {
    assert seen + all[|seen|..] == all;
    DedupIndexPrefix(seen, all[|seen|..], d);
  }

  /** The inner loop appending one file's messages. */
  method AppendTagged(errors: seq<string>, name: string, lines: seq<string>) returns (r: seq<string>)
    ensures r == errors + Tagged(name, lines)
  {
    r := errors;
    for k := 0 to |lines|
      invariant r == errors + Tagged(name, lines[..k])
    {
      assert Tagged(name, lines[..k + 1]) == Tagged(name, lines[..k]) + ["[" + name + "] " + lines[k]];
      r := r + ["[" + name + "] " + lines[k]];
    }
    assert lines[..|lines|] == lines;
  }

  /** Step 2 for one BTS entry. */
  method BtsFileStep(ghost all: seq<string>, bts: seq<ScriptEntry>, i: nat, seqMap: map<string, nat>, counter: nat,
                     files: seq<OutFile>, errors: seq<string>)
    returns (seqMap': map<string, nat>, counter': nat, files': seq<OutFile>, errors': seq<string>)
    requires i < |bts| && |bts| <= |all| && all[..|bts|] == Dus(bts)
    requires forall n :: 0 <= n < |bts| ==> bts[n].du in all
    requires SeqMapOk(seqMap, Dus(bts)[..i], counter)
    requires files == BtsFiles(all, bts)[..i] && errors == Flat(BtsTags(all, bts)[..i])
    ensures SeqMapOk(seqMap', Dus(bts)[..i + 1], counter')
    ensures files' == BtsFiles(all, bts)[..i + 1] && errors' == Flat(BtsTags(all, bts)[..i + 1])
  {
    var e := bts[i];
    seqMap', counter' := BtsMeet(all, bts, i, seqMap, counter);
    var name := BtsFileName(seqMap'[e.du], e);
    BtsSlot(all, bts, i, seqMap'[e.du]);
    files' := files + [OutFile(name, Content(e.script))];
    errors' := AppendTagged(errors, name, e.errors);
  }

  /** The DU of BTS entry `i` recorded in the base map, and its base. */
  method BtsMeet(ghost all: seq<string>, bts: seq<ScriptEntry>, i: nat, seqMap: map<string, nat>, counter: nat)
    returns (seqMap': map<string, nat>, counter': nat)
    requires i < |bts| && |bts| <= |all| && all[..|bts|] == Dus(bts)
    requires SeqMapOk(seqMap, Dus(bts)[..i], counter)
    ensures SeqMapOk(seqMap', Dus(bts)[..i + 1], counter')
    ensures bts[i].du in all && bts[i].du in seqMap' && seqMap'[bts[i].du] == Base(all, bts[i].du)
  {
    var du := bts[i].du;
    ghost var seen := Dus(bts)[..i];
    SeqMapStep(seqMap, seen, counter, du);
    seqMap', counter' := seqMap, counter;
    if du !in seqMap {
      seqMap' := seqMap[du := counter * 100];
      counter' := counter + 1;
    }
    SliceSnoc(Dus(bts), i);
    assert all[..i + 1] == Dus(bts)[..i + 1];
    BaseOfSeen(all, seen + [du], seqMap', counter', du);
  }

  /** The file and the messages of BTS entry `i`, after those of the entries before it. */
  lemma BtsSlot(all: seq<string>, bts: seq<ScriptEntry>, i: nat, num: nat)
    requires i < |bts| && forall n :: 0 <= n < |bts| ==> bts[n].du in all
    requires num == Base(all, bts[i].du)
    ensures BtsFiles(all, bts)[..i + 1] == BtsFiles(all, bts)[..i] + [OutFile(BtsFileName(num, bts[i]), Content(bts[i].script))]
    ensures Flat(BtsTags(all, bts)[..i + 1]) == Flat(BtsTags(all, bts)[..i]) + Tagged(BtsFileName(num, bts[i]), bts[i].errors)
  {
    SliceSnoc(BtsFiles(all, bts), i);
    FlatSnoc(BtsTags(all, bts), i);
  }

  /** `cell_index_map`: the next cell number offset of every DU met so far. */
  ghost predicate CellIdxOk(ci: map<string, nat>, m: map<string, nat>, cellDus: seq<string>, j: nat)
    requires j <= |cellDus|
  {
    && (forall d :: d in ci <==> d in m)
    && (forall d :: d in ci ==> ci[d] == 1 + Count(cellDus[..j], d))
  }

  lemma CellIdxBump(ci: map<string, nat>, m: map<string, nat>, cellDus: seq<string>, j: nat, du: string)
    requires j < |cellDus| && CellIdxOk(ci, m, cellDus, j) && du == cellDus[j] && du in m
    ensures du in ci && CellIdxOk(ci[du := ci[du] + 1], m, cellDus, j + 1)
  {
    var ci' := ci[du := ci[du] + 1];
    forall d | d in ci' ensures ci'[d] == 1 + Count(cellDus[..j + 1], d) {
      CountSnocPrefix(cellDus, j, d);
    }
  }

  /** The next cell number offset of a DU that has been met */
  lemma CellIdxAt(ci: map<string, nat>, m: map<string, nat>, cellDus: seq<string>, j: nat, d: string)
    requires j <= |cellDus| && CellIdxOk(ci, m, cellDus, j) && d in m
    ensures d in ci && ci[d] == 1 + Count(cellDus[..j], d)
  {
  }

  lemma CellIdxMeet(ci: map<string, nat>, m: map<string, nat>, cellDus: seq<string>, j: nat, du: string, base: nat)
    requires j <= |cellDus| && CellIdxOk(ci, m, cellDus, j) && du !in m && du !in cellDus[..j]
    ensures CellIdxOk(ci[du := 1], m[du := base], cellDus, j)
  {
  }

  /** The DU ids met once `j` cells are done extend by the next cell's. */
  lemma SeenCells(all: seq<string>, bd: seq<string>, cd: seq<string>, j: nat)
    requires j < |cd| && |bd| + |cd| <= |all| && all[..|bd| + |cd|] == bd + cd
    ensures all[..|bd| + j + 1] == bd + cd[..j + 1] == (bd + cd[..j]) + [cd[j]]
  {
    assert all[..|bd| + |cd|][..|bd| + j + 1] == all[..|bd| + j + 1];
    assert (bd + cd)[..|bd| + j + 1] == bd + cd[..j + 1];
    SliceSnoc(cd, j);
  }

  /** The maps once the DU of the next cell is met: its hundred is recorded, and a DU met for
      the first time starts its cell numbers at 1. */
  method CellMeet(ghost all: seq<string>, bts: seq<ScriptEntry>, cells: seq<ScriptEntry>, j: nat,
                  seqMap: map<string, nat>, counter: nat, cellIdx: map<string, nat>)
    returns (seqMap': map<string, nat>, counter': nat, cellIdx': map<string, nat>)
    requires j < |cells|
    requires |bts| + |cells| <= |all| && all[..|bts| + |cells|] == Dus(bts) + Dus(cells)
    requires SeqMapOk(seqMap, Dus(bts) + Dus(cells)[..j], counter)
    requires CellIdxOk(cellIdx, seqMap, Dus(cells), j)
    ensures SeqMapOk(seqMap', Dus(bts) + Dus(cells)[..j + 1], counter')
    ensures CellIdxOk(cellIdx', seqMap', Dus(cells), j)
    ensures cells[j].du in all && cells[j].du in seqMap' && seqMap'[cells[j].du] == Base(all, cells[j].du)
  {
    var du := cells[j].du;
    ghost var cd := Dus(cells);
    assert cd[j] == du;
    ghost var seen := Dus(bts) + cd[..j];
    SeqMapStep(seqMap, seen, counter, du);
    seqMap', counter', cellIdx' := seqMap, counter, cellIdx;
    if du !in seqMap {
      CellIdxMeet(cellIdx, seqMap, cd, j, du, counter * 100);
      seqMap' := seqMap[du := counter * 100];
      cellIdx' := cellIdx[du := 1];
      counter' := counter + 1;
    }
    SeenCells(all, Dus(bts), cd, j);
    BaseOfSeen(all, seen + [du], seqMap', counter', du);
  }

  /** The number and name of one cell file, and the maps after it. */
  method CellSlot(ghost all: seq<string>, bts: seq<ScriptEntry>, cells: seq<ScriptEntry>, j: nat,
                  seqMap: map<string, nat>, counter: nat, cellIdx: map<string, nat>)
    returns (seqMap': map<string, nat>, counter': nat, cellIdx': map<string, nat>, name: string)
    requires j < |cells| && WellFormed(cells)
    requires |bts| + |cells| <= |all| && all[..|bts| + |cells|] == Dus(bts) + Dus(cells)
    requires forall n :: 0 <= n < |cells| ==> cells[n].du in all
    requires SeqMapOk(seqMap, Dus(bts) + Dus(cells)[..j], counter)
    requires CellIdxOk(cellIdx, seqMap, Dus(cells), j)
    ensures SeqMapOk(seqMap', Dus(bts) + Dus(cells)[..j + 1], counter')
    ensures CellIdxOk(cellIdx', seqMap', Dus(cells), j + 1)
    ensures name == CellName(all, cells, j)
  {
    seqMap', counter', cellIdx' := CellMeet(all, bts, cells, j, seqMap, counter, cellIdx);
    var e := cells[j];
    var du := e.du;
    ghost var cd := Dus(cells);
    assert cd[j] == du;
    CellIdxAt(cellIdx', seqMap', cd, j, du);
    var seqNum := seqMap'[du] + cellIdx'[du];
    assert seqNum == CellNumber(all, cd, j);
    name := CellFileName(seqNum, e);
    CellIdxBump(cellIdx', seqMap', cd, j, du);
    cellIdx' := cellIdx'[du := cellIdx'[du] + 1];
  }

  /** The state of step 3 once `j` cells are written. */
  ghost predicate CellsDone(all: seq<string>, bts: seq<ScriptEntry>, cells: seq<ScriptEntry>, j: nat,
                            m: map<string, nat>, counter: nat, ci: map<string, nat>,
                            files: seq<OutFile>, errors: seq<string>)
    requires j <= |cells| && WellFormed(cells) && forall n :: 0 <= n < |cells| ==> cells[n].du in all
  {
    && SeqMapOk(m, Dus(bts) + Dus(cells)[..j], counter)
    && CellIdxOk(ci, m, Dus(cells), j)
    && files == CellFiles(all, cells)[..j] && errors == Flat(CellTags(all, cells)[..j])
  }

  /** Step 3 for one cell entry. */
  method CellFileStep(ghost all: seq<string>, bts: seq<ScriptEntry>, cells: seq<ScriptEntry>, j: nat,
                      seqMap: map<string, nat>, counter: nat, cellIdx: map<string, nat>,
                      files: seq<OutFile>, errors: seq<string>)
    returns (seqMap': map<string, nat>, counter': nat, cellIdx': map<string, nat>,
             files': seq<OutFile>, errors': seq<string>)
    requires j < |cells| && WellFormed(cells)
    requires |bts| + |cells| <= |all| && all[..|bts| + |cells|] == Dus(bts) + Dus(cells)
    requires forall n :: 0 <= n < |cells| ==> cells[n].du in all
    requires CellsDone(all, bts, cells, j, seqMap, counter, cellIdx, files, errors)
    ensures CellsDone(all, bts, cells, j + 1, seqMap', counter', cellIdx', files', errors')
  {
    var name;
    seqMap', counter', cellIdx', name := CellSlot(all, bts, cells, j, seqMap, counter, cellIdx);
    var e := cells[j];
    files' := files + [OutFile(name, Join(e.script, "\n") + "\n")];
    SliceSnoc(CellFiles(all, cells), j);
    errors' := AppendTagged(errors, name, e.errors);
    FlatSnoc(CellTags(all, cells), j);
  }

  /** `mod_index_map`: the next module number offset of every DU met so far. */
  ghost predicate ModIdxOk(mi: map<string, nat>, m: map<string, nat>, cellDus: seq<string>, modDus: seq<string>, k: nat)
    requires k <= |modDus|
  {
    && (forall d :: d in mi <==> d in m)
    && (forall d :: d in mi ==> mi[d] == 1 + Count(cellDus, d) + Count(modDus[..k], d))
  }

  lemma ModIdxMeet(mi: map<string, nat>, m: map<string, nat>, cellDus: seq<string>, modDus: seq<string>, k: nat,
                   du: string, base: nat)
    requires k <= |modDus| && ModIdxOk(mi, m, cellDus, modDus, k) && du !in m
    requires du !in cellDus && du !in modDus[..k]
    ensures ModIdxOk(mi[du := 1], m[du := base], cellDus, modDus, k)
  {
  }

  lemma ModIdxBump(mi: map<string, nat>, m: map<string, nat>, cellDus: seq<string>, modDus: seq<string>, k: nat)
    requires k < |modDus| && ModIdxOk(mi, m, cellDus, modDus, k) && modDus[k] in m
    ensures ModIdxOk(mi[modDus[k] := mi[modDus[k]] + 1], m, cellDus, modDus, k + 1)
  {
    var du := modDus[k];
    var mi' := mi[du := mi[du] + 1];
    forall d | d in mi' ensures mi'[d] == 1 + Count(cellDus, d) + Count(modDus[..k + 1], d) {
      CountSnocPrefix(modDus, k, d);
    }
  }

  lemma SeenMods(bd: seq<string>, cd: seq<string>, md: seq<string>, k: nat)
    requires k < |md|
    ensures (bd + cd + md)[..|bd| + |cd| + k + 1] == bd + cd + md[..k + 1] == (bd + cd + md[..k]) + [md[k]]
  {
    assert (bd + cd + md)[..|bd| + |cd| + k + 1] == bd + cd + md[..k + 1];
    SliceSnoc(md, k);
  }

  /** The number and name of one module file, and the maps after it. */
  method ModSlot(bts: seq<ScriptEntry>, cells: seq<ScriptEntry>, mods: seq<ModEntry>, k: nat,
                 seqMap: map<string, nat>, counter: nat, modIdx: map<string, nat>)
    returns (seqMap': map<string, nat>, counter': nat, modIdx': map<string, nat>, name: string)
    requires k < |mods|
    requires SeqMapOk(seqMap, Dus(bts) + Dus(cells) + ModDus(mods)[..k], counter)
    requires ModIdxOk(modIdx, seqMap, Dus(cells), ModDus(mods), k)
    ensures SeqMapOk(seqMap', Dus(bts) + Dus(cells) + ModDus(mods)[..k + 1], counter')
    ensures ModIdxOk(modIdx', seqMap', Dus(cells), ModDus(mods), k + 1)
    ensures mods[k].du in AllDus(bts, cells, mods) && name == ModName(AllDus(bts, cells, mods), cells, mods, k)
  {
    ghost var all := AllDus(bts, cells, mods);
    var du := mods[k].du;
    ghost var md := ModDus(mods);
    ghost var seen := Dus(bts) + Dus(cells) + md[..k];
    SeqMapStep(seqMap, seen, counter, du);
    seqMap', counter', modIdx' := seqMap, counter, modIdx;
    if du !in seqMap {
      ModIdxMeet(modIdx, seqMap, Dus(cells), md, k, du, counter * 100);
      seqMap' := seqMap[du := counter * 100];
      modIdx' := modIdx[du := 1];
      counter' := counter + 1;
    }
    SeenMods(Dus(bts), Dus(cells), md, k);
    BaseOfSeen(all, seen + [du], seqMap', counter', du);
    var seqNum := seqMap'[du] + modIdx'[du];
    assert seqNum == ModNumber(all, Dus(cells), md, k);
    name := ModFileName(seqNum, du);
    ModIdxBump(modIdx', seqMap', Dus(cells), md, k);
    modIdx' := modIdx'[du := modIdx'[du] + 1];
  }

  /** Step 2 of the writer: the BTS scripts, each DU met for the first time taking the next hundred. */
  method BtsPhase(ghost all: seq<string>, bts: seq<ScriptEntry>)
    returns (seqMap: map<string, nat>, counter: nat, files: seq<OutFile>, errors: seq<string>)
    requires |bts| <= |all| && all[..|bts|] == Dus(bts)
    requires forall n :: 0 <= n < |bts| ==> bts[n].du in all
    ensures SeqMapOk(seqMap, Dus(bts), counter)
    ensures files == BtsFiles(all, bts) && errors == Flat(BtsTags(all, bts))
  {
    seqMap, counter := map[], 1;
    files, errors := [], [];
    for i := 0 to |bts|
      invariant SeqMapOk(seqMap, Dus(bts)[..i], counter)
      invariant files == BtsFiles(all, bts)[..i] && errors == Flat(BtsTags(all, bts)[..i])
    {
      seqMap, counter, files, errors := BtsFileStep(all, bts, i, seqMap, counter, files, errors);
    }
    assert BtsFiles(all, bts)[..|bts|] == BtsFiles(all, bts);
    assert BtsTags(all, bts)[..|bts|] == BtsTags(all, bts);
    assert Dus(bts)[..|bts|] == Dus(bts);
  }

  lemma CellStart(m: map<string, nat>, bd: seq<string>, cd: seq<string>, counter: nat)
    requires SeqMapOk(m, bd, counter)
    ensures SeqMapOk(m, bd + cd[..0], counter) && CellIdxOk(map d | d in m :: 1, m, cd, 0)
  {
    assert bd + cd[..0] == bd;
  }

  /** Step 3 of the writer: the cell scripts, numbered after their DU's hundred. */
  method CellPhase(ghost all: seq<string>, bts: seq<ScriptEntry>, cells: seq<ScriptEntry>,
                   seqMap: map<string, nat>, counter: nat)
    returns (seqMap': map<string, nat>, counter': nat, cellIdx: map<string, nat>,
             files: seq<OutFile>, errors: seq<string>)
    requires WellFormed(cells)
    requires |bts| + |cells| <= |all| && all[..|bts| + |cells|] == Dus(bts) + Dus(cells)
    requires forall n :: 0 <= n < |cells| ==> cells[n].du in all
    requires SeqMapOk(seqMap, Dus(bts), counter)
    ensures SeqMapOk(seqMap', Dus(bts) + Dus(cells), counter')
    ensures CellIdxOk(cellIdx, seqMap', Dus(cells), |cells|)
    ensures files == CellFiles(all, cells) && errors == Flat(CellTags(all, cells))
  {
    seqMap', counter' := seqMap, counter;
    cellIdx := map d | d in seqMap :: 1;
    CellStart(seqMap, Dus(bts), Dus(cells), counter);
    files, errors := [], [];
    for j := 0 to |cells|
      invariant CellsDone(all, bts, cells, j, seqMap', counter', cellIdx, files, errors)
    {
      seqMap', counter', cellIdx, files, errors := CellFileStep(all, bts, cells, j, seqMap', counter', cellIdx, files, errors);
    }
    assert CellFiles(all, cells)[..|cells|] == CellFiles(all, cells);
    assert CellTags(all, cells)[..|cells|] == CellTags(all, cells);
    assert Dus(cells)[..|cells|] == Dus(cells);
  }

  /** `mod_index_map` starts where each DU's cells stopped, and at 1 for a DU without cells. */
  method ModIdxStart(ci: map<string, nat>, m: map<string, nat>, ghost bd: seq<string>, ghost cellDus: seq<string>,
                     ghost modDus: seq<string>, ghost counter: nat)
    returns (mi: map<string, nat>)
    requires SeqMapOk(m, bd + cellDus, counter) && CellIdxOk(ci, m, cellDus, |cellDus|)
    ensures ModIdxOk(mi, m, cellDus, modDus, 0)
    ensures SeqMapOk(m, bd + cellDus + modDus[..0], counter)
  {
    mi := map d | d in m :: if d in ci then ci[d] else 1;
    assert cellDus[..|cellDus|] == cellDus;
    assert bd + cellDus + modDus[..0] == bd + cellDus;
  }

  /** The state of the module loop after `k` module files. */
  ghost predicate ModLoopOk(bts: seq<ScriptEntry>, cells: seq<ScriptEntry>, mods: seq<ModEntry>, k: nat,
                            seqMap: map<string, nat>, counter: nat, modIdx: map<string, nat>, files: seq<OutFile>)
    requires k <= |mods|
  {
    && SeqMapOk(seqMap, Dus(bts) + Dus(cells) + ModDus(mods)[..k], counter)
    && ModIdxOk(modIdx, seqMap, Dus(cells), ModDus(mods), k)
    && (forall n :: 0 <= n < |mods| ==> mods[n].du in AllDus(bts, cells, mods))
    && files == ModFiles(AllDus(bts, cells, mods), cells, mods)[..k]
  }

  /** One pass of the module loop. */
  method ModFileStep(bts: seq<ScriptEntry>, cells: seq<ScriptEntry>, mods: seq<ModEntry>, k: nat,
                     seqMap: map<string, nat>, counter: nat, modIdx: map<string, nat>, files: seq<OutFile>)
    returns (seqMap': map<string, nat>, counter': nat, modIdx': map<string, nat>, files': seq<OutFile>)
    requires k < |mods| && ModLoopOk(bts, cells, mods, k, seqMap, counter, modIdx, files)
    ensures ModLoopOk(bts, cells, mods, k + 1, seqMap', counter', modIdx', files')
  {
    var name;
    seqMap', counter', modIdx', name := ModSlot(bts, cells, mods, k, seqMap, counter, modIdx);
    files' := files + [OutFile(name, Join(mods[k].script, "\n") + "\n")];
    SliceSnoc(ModFiles(AllDus(bts, cells, mods), cells, mods), k);
  }

  /** Step 4 of the writer: the module scripts, numbered after their DU's cells. */
  method ModPhase(bts: seq<ScriptEntry>, cells: seq<ScriptEntry>, mods: seq<ModEntry>,
                  seqMap: map<string, nat>, counter: nat, cellIdx: map<string, nat>)
    returns (files: seq<OutFile>)
    requires SeqMapOk(seqMap, Dus(bts) + Dus(cells), counter)
    requires CellIdxOk(cellIdx, seqMap, Dus(cells), |cells|)
    requires forall n :: 0 <= n < |mods| ==> mods[n].du in AllDus(bts, cells, mods)
    ensures files == ModFiles(AllDus(bts, cells, mods), cells, mods)
  {
    var m, c := seqMap, counter;
    var modIdx := ModIdxStart(cellIdx, seqMap, Dus(bts), Dus(cells), ModDus(mods), counter);
    files := [];
    for k := 0 to |mods|
      invariant ModLoopOk(bts, cells, mods, k, m, c, modIdx, files)
    {
      m, c, modIdx, files := ModFileStep(bts, cells, mods, k, m, c, modIdx, files);
    }
    assert ModFiles(AllDus(bts, cells, mods), cells, mods)[..|mods|] == ModFiles(AllDus(bts, cells, mods), cells, mods);
  }

  /** Step 5 of the writer: one time-stamped line per message, only when there is one. */
  method LogPhase(now: string, errors: seq<string>) returns (log: seq<string>)
    ensures log == LogLines(now, errors)
  {
    log := [];
    if errors != [] {
      for k := 0 to |errors|
        invariant log == LogLines(now, errors)[..k]
      {
        log := log + ["[" + now + "] " + errors[k] + "\n"];
        SliceSnoc(LogLines(now, errors), k);
      }
      assert LogLines(now, errors)[..|errors|] == LogLines(now, errors);
    }
  }

  lemma AllDusPrefixes(bts: seq<ScriptEntry>, cells: seq<ScriptEntry>, mods: seq<ModEntry>)
    ensures var all := AllDus(bts, cells, mods);
            |bts| + |cells| <= |all| && all[..|bts|] == Dus(bts) && all[..|bts| + |cells|] == Dus(bts) + Dus(cells)
  {
    var all := AllDus(bts, cells, mods);
    assert all == Dus(bts) + Dus(cells) + ModDus(mods);
    assert all[..|bts|] == Dus(bts);
    assert all[..|bts| + |cells|] == Dus(bts) + Dus(cells);
  }

  /** `_write_script_files`: names, numbers and writes the BTS, cell and module scripts, and
      collects every message under its file's name for `parse_errors.log`. */
  method WriteScriptFiles(bts: seq<ScriptEntry>, cells: seq<ScriptEntry>, mods: seq<ModEntry>, now: string)
    returns (files: seq<OutFile>, errors: seq<string>, log: seq<string>)
    requires WellFormed(cells)
    ensures files == PlannedFiles(bts, cells, mods)
    ensures errors == PlannedErrors(bts, cells, mods)
    ensures log == LogLines(now, errors)
  {
    ghost var all := AllDus(bts, cells, mods);
    AllDusMembers(bts, cells, mods);
    AllDusPrefixes(bts, cells, mods);
    var seqMap, counter, btsFiles, btsErrors := BtsPhase(all, bts);
    var cellIdx, cellFiles, cellErrors;
    seqMap, counter, cellIdx, cellFiles, cellErrors := CellPhase(all, bts, cells, seqMap, counter);
    var modFiles := ModPhase(bts, cells, mods, seqMap, counter, cellIdx);
    files := btsFiles + cellFiles + modFiles;
    errors := btsErrors + cellErrors;
    log := LogPhase(now, errors);
  }

  // ----- what the numbering promises -----

  lemma CountRange(xs: seq<string>, i: nat, j: nat, x: string)
    requires i <= j <= |xs|
    ensures Count(xs[..j], x) == Count(xs[..i], x) + Count(xs[i..j], x)
  {
    assert xs[..j] == xs[..i] + xs[i..j];
    CountAppend(xs[..i], xs[i..j], x);
  }

  /** Every DU owns a block of one hundred numbers; blocks of different DUs are at least a
      hundred apart and follow the order in which the writer first meets the DUs. */
  lemma BaseBlocks(all: seq<string>, a: string, b: string)
    requires a in all && b in all
    ensures Base(all, a) >= 100
    ensures a != b ==> Base(all, a) + 100 <= Base(all, b) || Base(all, b) + 100 <= Base(all, a)
    ensures IndexOf(all, a) < IndexOf(all, b) ==> Base(all, a) < Base(all, b)
  {
    var dd := Dedup(all);
    var x, y := IndexOf(dd, a), IndexOf(dd, b);
    assert Base(all, a) == 100 * x + 100 && Base(all, b) == 100 * y + 100;
    if IndexOf(all, a) < IndexOf(all, b) {
      DedupIndexMono(all, a, b);
    }
    if x < y {
      assert 100 * x + 100 <= 100 * y;
    } else if y < x {
      assert 100 * y + 100 <= 100 * x;
    }
  }

  /** The cells of one DU take the numbers right after its BTS script, one after another in
      sheet order. */
  lemma CellsConsecutive(all: seq<string>, cellDus: seq<string>, i: nat, j: nat)
    requires i < j < |cellDus| && cellDus[i] == cellDus[j] && cellDus[j] in all
    ensures CellNumber(all, cellDus, j) == CellNumber(all, cellDus, i) + Count(cellDus[i..j], cellDus[j])
    ensures CellNumber(all, cellDus, i) < CellNumber(all, cellDus, j)
    ensures cellDus[i] !in cellDus[..i] ==> CellNumber(all, cellDus, i) == Base(all, cellDus[i]) + 1
  {
    CountRange(cellDus, i, j, cellDus[j]);
    assert cellDus[i..j][0] == cellDus[j];
  }

  /** A module script of a DU is numbered after every cell script of that DU; its modules too
      follow one another, the first right after the last cell. */
  lemma ModsAfterCells(all: seq<string>, cellDus: seq<string>, modDus: seq<string>, j: nat, k: nat)
    requires j < |cellDus| && k < |modDus| && cellDus[j] == modDus[k] && modDus[k] in all
    ensures CellNumber(all, cellDus, j) < ModNumber(all, cellDus, modDus, k)
  {
    CountRange(cellDus, j, |cellDus|, cellDus[j]);
    assert cellDus[..|cellDus|] == cellDus;
    assert cellDus[j..|cellDus|][0] == cellDus[j];
  }

  lemma ModsConsecutive(all: seq<string>, cellDus: seq<string>, modDus: seq<string>, i: nat, k: nat)
    requires i < k < |modDus| && modDus[i] == modDus[k] && modDus[k] in all
    ensures ModNumber(all, cellDus, modDus, k) == ModNumber(all, cellDus, modDus, i) + Count(modDus[i..k], modDus[k])
    ensures ModNumber(all, cellDus, modDus, i) < ModNumber(all, cellDus, modDus, k)
    ensures modDus[i] !in modDus[..i] ==>
              ModNumber(all, cellDus, modDus, i) == Base(all, modDus[i]) + 1 + Count(cellDus, modDus[i])
  {
    CountRange(modDus, i, k, modDus[k]);
    assert modDus[i..k][0] == modDus[k];
  }
}
