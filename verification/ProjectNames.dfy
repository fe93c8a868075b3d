/** Cleaning up a requested project name, and the one family of names that escapes the clean-up. */
module ProjectNames {
  import opened Strings
  import opened ProjectForest

  /** `len(list(filter(None, parts)))`. */
  function CountNonEmpty(parts: seq<string>): nat {
    if parts == [] then 0 else (if parts[0] == "" then 0 else 1) + CountNonEmpty(parts[1..])
  }

  /** `[p.strip() for p in parts if p]`: emptiness is checked before stripping. */
  function StripNonEmpty(parts: seq<string>): (r: seq<string>)
    ensures |r| == CountNonEmpty(parts)
    ensures Free(parts, SEP) ==> Free(r, SEP)
    ensures forall k :: 0 <= k < |r| ==> r[k] == "" || Strip(r[k]) == r[k]
  {
    if parts == [] then []
    else if parts[0] == "" then StripNonEmpty(parts[1..])
    else [Strip(parts[0])] + StripNonEmpty(parts[1..])
  }

  /** The levels of a requested name. */
  function CleanParts(name: string): (r: seq<string>)
    ensures |r| == CountNonEmpty(Parts(name))
  {
    StripNonEmpty(Parts(name))
  }

  /** A part with `k` non-empty ones before it is empty, or is level `k` once the blanks around it are gone. */
  ghost predicate LevelAt(parts: seq<string>, levels: seq<string>, j: int)
    requires 0 <= j < |parts|
  {
    var k := CountNonEmpty(parts[..j]);
    parts[j] != "" ==> k < |levels| && IsStripped(parts[j], levels[k])
  }

  ghost predicate AreLevels(parts: seq<string>, levels: seq<string>) {
    && |levels| == CountNonEmpty(parts)
    && forall j :: 0 <= j < |parts| ==> LevelAt(parts, levels, j)
  }

  /** The levels are the non-empty parts between the separators, in order, without blanks around them. */
  ghost predicate IsCleanUp(name: string, levels: seq<string>) {
    AreLevels(Parts(name), levels)
  }

  lemma LevelLater(parts: seq<string>, levels: seq<string>, rest: seq<string>, j: int)
    requires 0 < j < |parts| && (parts[0] != "" ==> levels != [])
    requires rest == if parts[0] == "" then levels else levels[1..]
    ensures LevelAt(parts, levels, j) <==> LevelAt(parts[1..], rest, j - 1)
  {
    assert parts[..j][1..] == parts[1..][..j - 1];
  }

  lemma LevelsLater(parts: seq<string>, levels: seq<string>, rest: seq<string>)
    requires parts != [] && (parts[0] != "" ==> levels != [])
    requires rest == if parts[0] == "" then levels else levels[1..]
    ensures AreLevels(parts, levels) <==> LevelAt(parts, levels, 0) && AreLevels(parts[1..], rest)
  {
    forall j | 0 < j < |parts| ensures LevelAt(parts, levels, j) <==> LevelAt(parts[1..], rest, j - 1) {
      LevelLater(parts, levels, rest, j);
    }
    if AreLevels(parts, levels) {
      forall j | 0 <= j < |parts| - 1 ensures LevelAt(parts[1..], rest, j) {
        assert LevelAt(parts, levels, j + 1);
      }
    }
  }

  lemma {:induction false} LevelsMean(parts: seq<string>, levels: seq<string>)
    ensures AreLevels(parts, levels) <==> levels == StripNonEmpty(parts)
  {
    if parts != [] && (parts[0] != "" ==> levels != []) {
      var rest := if parts[0] == "" then levels else levels[1..];
      LevelsLater(parts, levels, rest);
      LevelsMean(parts[1..], rest);
      assert parts[..0] == [];
      if parts[0] != "" {
        StripMeans(parts[0], levels[0]);
        assert levels == [levels[0]] + rest;
      }
    }
  }

  /** The levels of a requested name are what cleaning up is to give, and nothing else is. */
  lemma CleanPartsMeans(name: string, levels: seq<string>)
    ensures IsCleanUp(name, levels) <==> levels == CleanParts(name)
  {
    LevelsMean(Parts(name), levels);
  }

  function CleanName(name: string): string { Join(CleanParts(name), SEP) }

  /** Every level has a visible character. */
  predicate NoBlankPart(parts: seq<string>) {
    forall k :: 0 <= k < |parts| ==> parts[k] != ""
  }

  /**
   * The levels of the requested names that end as a broken top-level project: exactly two, the
   * first made of blanks only. Such a name is stored as "/x" with no parent.
   */
  predicate BlankRoot(cp: seq<string>) {
    |cp| == 2 && cp[0] == "" && cp[1] != ""
  }

  /** The levels of the requested names that are empty after the clean-up: none, or one of blanks only. */
  predicate NoName(cp: seq<string>) {
    cp == [] || cp == [""]
  }

  lemma NoNameIsBlank(cp: seq<string>)
    ensures NoName(cp) && NoBlankPart(cp) <==> cp == []
  {
    assert cp == [""] ==> cp[0] == "";
  }

  lemma EmptyName(name: string)
    ensures CleanName(name) == "" <==> NoName(CleanParts(name))
  {
    var cp := CleanParts(name);
    if |cp| > 1 {
      assert Join(cp, SEP) == cp[0] + [SEP] + Join(cp[1..], SEP);
      assert SEP in Join(cp, SEP);
    }
  }

  /** A requested name of blanks only. */
  lemma BlankNameExample()
    ensures CleanParts(" ") == [""] && CleanName(" ") == ""
  {
    SplitAtom(" ", SEP);
    assert Strip(" ") == Strip(" "[1..]);
    assert [" "][1..] == [];
  }

  /** A requested name that ends that way. */
  lemma BlankRootExample()
    ensures CleanParts(" /a") == ["", "a"] && BlankRoot(CleanParts(" /a")) && CleanName(" /a") == "/a"
  {
    var name := " /a";
    assert name == " " + [SEP] + "a";
    SplitConcat(" ", "a", SEP);
    SplitAtom(" ", SEP);
    SplitAtom("a", SEP);
    assert Parts(name) == [" ", "a"];
    assert StripNonEmpty(["a"]) == ["a"] + StripNonEmpty([]);
    assert Strip(" ") == Strip(" "[1..]);
    assert CleanParts(name) == ["", "a"];
    JoinPair("", "a", SEP);
  }

  lemma CleanPartsFree(name: string)
    ensures Free(CleanParts(name), SEP)
    ensures NoBlankPart(CleanParts(name)) ==>
              forall k :: 0 <= k < |CleanParts(name)| ==> NormalPart(CleanParts(name)[k])
  {
    SplitIsFree(name, SEP);
  }

  /** Cleaning is idempotent except that it drops the levels that stripping emptied. */
  function DropBlank(parts: seq<string>): (r: seq<string>)
    ensures |r| <= |parts|
    ensures NoBlankPart(r)
    ensures NoBlankPart(parts) ==> r == parts
    ensures |r| == |parts| ==> r == parts
  {
    if parts == [] then []
    else if parts[0] == "" then DropBlank(parts[1..])
    else [parts[0]] + DropBlank(parts[1..])
  }

  /** What precedes the last level gives what precedes it, blank levels dropped. */
  lemma {:induction false} DropBlankFront(parts: seq<string>)
    requires parts != []
    ensures DropBlank(parts[..|parts| - 1]) <= DropBlank(parts)
  {
    if |parts| > 1 {
      DropBlankFront(parts[1..]);
      assert parts[..|parts| - 1][1..] == parts[1..][..|parts[1..]| - 1];
    }
  }

  lemma {:induction false} StripNonEmptyOfStripped(parts: seq<string>)
    requires forall k :: 0 <= k < |parts| ==> parts[k] == "" || Strip(parts[k]) == parts[k]
    ensures StripNonEmpty(parts) == DropBlank(parts)
  {
    if parts != [] {
      StripNonEmptyOfStripped(parts[1..]);
    }
  }

  /** The location of a cleaned name, cleaned again: what the recursive creation works on. */
  lemma CleanLocation(name: string)
    requires CleanParts(name) != []
    ensures var cp := CleanParts(name);
            CleanParts(Join(cp[..|cp| - 1], SEP)) == DropBlank(cp[..|cp| - 1])
  {
    var cp := CleanParts(name);
    var front := cp[..|cp| - 1];
    CleanPartsFree(name);
    if front == [] {
      assert Parts("") == [""];
    } else {
      SplitOfJoin(front, SEP);
      StripNonEmptyOfStripped(front);
    }
  }

  lemma PartsOfCleanName(name: string)
    requires CleanParts(name) != []
    ensures Parts(CleanName(name)) == CleanParts(name)
  {
    CleanPartsFree(name);
    SplitOfJoin(CleanParts(name), SEP);
  }

  /** In a forest every stored name is already clean. */
  lemma {:induction false} StoredPartsNormal(db: Store, i: Id)
    requires Forest(db) && i in db
    ensures forall k :: 0 <= k < |Parts(db[i].name)| ==> NormalPart(Parts(db[i].name)[k])
    decreases |db[i].path|
  {
    assert Linked(db, i);
    if db[i].parent.Some? {
      StoredPartsNormal(db, db[i].parent.value);
      PartsOfChild(db, i);
    } else {
      SplitAtom(db[i].basename, SEP);
    }
  }

  /** Hence cleaning a stored name gives it back. */
  lemma StoredNameIsClean(db: Store, i: Id)
    requires Forest(db) && i in db
    ensures CleanParts(db[i].name) == Parts(db[i].name)
    ensures NoBlankPart(Parts(db[i].name))
    ensures CleanName(db[i].name) == db[i].name
  {
    StoredPartsNormal(db, i);
    var ps := Parts(db[i].name);
    StripNonEmptyOfStripped(ps);
    assert NoBlankPart(ps);
    JoinOfSplit(db[i].name, SEP);
  }
}
