/** Reading the instruction file of every project root, within limits on each file, on all of
    them together, and on their number. */
module ProjectInstructions {

  import opened Results
  import opened Text
  import opened Utf8

  const MAX_FILES := 64
  const MAX_FILE_BYTES := 65536
  const MAX_TOTAL_BYTES := 262144
  /** The longest character. */
  const UTF_MAX := 4

  datatype Instruction = Instruction(projectRoot: string, content: seq<Byte>, truncated: bool)

  /** The longest text at the start of some bytes. */
  ghost predicate IsLongestText(data: seq<Byte>, text: seq<Byte>) {
    text <= data && Valid(text) && forall n :: |text| < n <= |data| ==> !Valid(data[..n])
  }

  lemma LongestTextIsUnique(data: seq<Byte>, a: seq<Byte>, b: seq<Byte>)
    requires IsLongestText(data, a) && IsLongestText(data, b)
    ensures a == b
  {
    hide Valid;
    assert data[..|a|] == a && data[..|b|] == b;
  }

  function Min(a: int, b: int): int {
    if a <= b then a else b
  }

  /** What is left of some bytes within a limit. */
  ghost function WithinLimit(data: seq<Byte>, limit: nat): seq<Byte> {
    data[..Min(|data|, limit)]
  }

  /** The longest text at the start of some bytes, found from the end. */
  ghost function TextOf(data: seq<Byte>): (text: seq<Byte>)
    ensures IsLongestText(data, text)
  {
    if Valid(data) then data
    else
      var text := TextOf(data[..|data| - 1]);
      assert forall n :: 0 <= n < |data| ==> data[..|data| - 1][..n] == data[..n];
      assert data[..|data|] == data;
      text
  }

  datatype Reading = Reading(content: seq<Byte>, truncated: bool, ok: bool)

  /** What reading a file gives.  `size` is what the file was said to measure before it was
      opened. */
  ghost function ReadSpec(file: Option<seq<Byte>>, size: int, limit: int): Reading {
    if limit <= 0 then Reading([], true, true)
    else if file.None? then Reading([], false, false)
    else
      var text := TextOf(WithinLimit(file.value, limit));
      if 0 in text then Reading([], false, false) else Reading(text, |file.value| > limit || size > limit, true)
  }

  /** Reads as much of a file as is text and within the limit. */
  method ReadProjectInstruction(file: Option<seq<Byte>>, size: int, limit: int)
    returns (content: seq<Byte>, truncated: bool, ok: bool)
    ensures Reading(content, truncated, ok) == ReadSpec(file, size, limit)
  {
    hide Valid, TextOf;
    if limit <= 0 {
      return [], true, true;
    }
    if file.None? {
      return [], false, false;
    }
    var data := file.value[..Min(|file.value|, limit + UTF_MAX)];
    truncated := |data| > limit || size > limit;
    if |data| > limit {
      data := data[..limit];
    }
    ghost var within := data;
    assert within == WithinLimit(file.value, limit);
    while |data| > 0 && !Valid(data)
      invariant data <= within && forall n :: |data| < n <= |within| ==> !Valid(within[..n])
      decreases |data|
    {
      assert within[..|data|] == data;
      data := data[..|data| - 1];
    }
    assert Valid([]) by { NothingIsValid(); }
    LongestTextIsUnique(within, data, TextOf(within));
    if !Valid(data) || 0 in data {
      return [], false, false;
    }
    return data, truncated, true;
  }

  lemma NothingIsValid()
    ensures Valid([])
  {
  }

  /** Of a file that is text, what is read is the longest text within the limit: at most
      three bytes short of it, and everything when the file fits. */
  lemma TextIsCutClosely(file: seq<Byte>, limit: nat)
    requires Valid(file)
    ensures var text := TextOf(WithinLimit(file, limit));
            && text <= file && Min(|file|, limit) - 3 <= |text| <= limit
            && (|file| <= limit ==> text == file)
            && forall n :: |text| < n <= Min(|file|, limit) ==> !Valid(file[..n])
  {
    hide Valid, TextOf;
    var within := WithinLimit(file, limit);
    var text := TextOf(within);
    var b := BoundaryBelow(file, |within|);
    assert forall n :: 0 <= n <= |within| ==> within[..n] == file[..n];
    assert within[..|text|] == text;
    if |file| <= limit {
      assert within == file && file[..|file|] == file;
    }
  }

  /** When reading gives anything, its mark says whether something of the file is missing
      exactly when the file is longer than the limit, or was said to be just when it is no
      text: the end of a file that fits but is no text is dropped without a mark. It gives
      nothing exactly when the text within the limit has a NUL. */
  lemma MarkTellsTruth(file: seq<Byte>, size: int, limit: int)
    ensures var r := ReadSpec(Some(file), size, limit);
            && (r.ok <==> limit <= 0 || 0 !in TextOf(WithinLimit(file, limit)))
            && (r.ok ==>
                  ((r.truncated <==> r.content != file) <==>
                   if limit <= 0 then file != [] else |file| > limit || (size > limit <==> !Valid(file))))
  {
    hide Valid, TextOf;
    if 0 < limit && |file| <= limit {
      var text := TextOf(WithinLimit(file, limit));
      assert WithinLimit(file, limit) == file && file[..|file|] == file;
      assert Valid(file) <==> text == file;
    }
  }

  /** Two bytes, measured rightly and far within the limit: the second one is no text, and is
      gone without a mark. */
  lemma EndDroppedUnmarked()
    ensures ReadSpec(Some([0x61, 0xFF]), 2, 10) == Reading([0x61], false, true)
  {
    var file: seq<Byte> := [0x61, 0xFF];
    assert WithinLimit(file, 10) == file;
    assert file[1..] == [0xFF] && !Valid([0xFF]);
    assert Valid([0x61]);
    assert IsLongestText(file, [0x61]) by {
      assert file[..2] == file && file[..1] == [0x61];
    }
    LongestTextIsUnique(file, [0x61], TextOf(file));
  }

  // ----- all roots

  /** What the file system says: where a root really is, whether it has a regular file of
      instructions, how much that measures, what is in it, and which texts are blank. */
  datatype Environment = Environment(
    resolve: string -> Option<string>,
    regular: string -> bool,
    size: string -> int,
    file: string -> Option<seq<Byte>>,
    blank: seq<Byte> -> bool)

  datatype Loading = Loading(out: seq<Instruction>, seen: set<string>, total: nat)

  predicate Full(st: Loading) {
    |st.out| >= MAX_FILES || st.total >= MAX_TOTAL_BYTES
  }

  ghost function WithRoot(env: Environment, st: Loading, given: string): Loading {
    var root := Trim(given);
    if Full(st) || root == "" then st
    else
      var resolved := env.resolve(root);
      if resolved.None? || resolved.value in st.seen then st
      else
        var place := resolved.value;
        var next := st.(seen := st.seen + {place});
        var limit := Min(MAX_FILE_BYTES, MAX_TOTAL_BYTES - st.total);
        var r := ReadSpec(env.file(place), env.size(place), limit);
        if !env.regular(place) || !r.ok || env.blank(r.content) then next
        else next.(out := st.out + [Instruction(root, r.content, r.truncated)], total := st.total + |r.content|)
  }

  ghost function WithRoots(env: Environment, roots: seq<string>): Loading {
    if roots == [] then Loading([], {}, 0) else WithRoot(env, WithRoots(env, roots[..|roots| - 1]), roots[|roots| - 1])
  }

  method LoadProjectRootInstructions(env: Environment, roots: seq<string>) returns (out: seq<Instruction>)
    ensures out == WithRoots(env, roots).out
  {
    hide ReadSpec, Trim;
    out := [];
    var seen: set<string>, total: nat := {}, 0;
    for i := 0 to |roots|
      invariant Loading(out, seen, total) == WithRoots(env, roots[..i])
    {
      if |out| >= MAX_FILES || total >= MAX_TOTAL_BYTES {
        FullStays(env, roots, i);
        return;
      }
      assert roots[..i + 1][..i] == roots[..i];
      var root := Trim(roots[i]);
      if root == "" {
        continue;
      }
      var resolved := env.resolve(root);
      if resolved.None? || resolved.value in seen {
        continue;
      }
      var place := resolved.value;
      seen := seen + {place};
      if !env.regular(place) {
        continue;
      }
      var remaining := Min(MAX_FILE_BYTES, MAX_TOTAL_BYTES - total);
      var content, truncated, ok := ReadProjectInstruction(env.file(place), env.size(place), remaining);
      if !ok || env.blank(content) {
        continue;
      }
      total := total + |content|;
      out := out + [Instruction(root, content, truncated)];
    }
    assert roots[..|roots|] == roots;
  }

  /** Once a budget is used up, later roots add nothing. */
  lemma {:induction false} FullStays(env: Environment, roots: seq<string>, i: nat)
    requires i <= |roots| && Full(WithRoots(env, roots[..i]))
    ensures WithRoots(env, roots) == WithRoots(env, roots[..i])
    decreases |roots|
  {
    if i == |roots| {
      assert roots[..i] == roots;
    } else {
      assert roots[..|roots| - 1][..i] == roots[..i];
      FullStays(env, roots[..|roots| - 1], i);
    }
  }

  function TotalBytes(out: seq<Instruction>): nat {
    if out == [] then 0 else TotalBytes(out[..|out| - 1]) + |out[|out| - 1].content|
  }

  predicate GoodInstruction(env: Environment, x: Instruction) {
    && |x.content| <= MAX_FILE_BYTES && Valid(x.content) && 0 !in x.content && !env.blank(x.content)
  }

  /** Whatever the roots hold, there are at most 64 instructions, each of at most 64 KiB of
      text without NUL that is not blank, and at most 256 KiB of them together. */
  lemma {:induction false} BudgetsHold(env: Environment, roots: seq<string>)
    ensures var st := WithRoots(env, roots);
            && |st.out| <= MAX_FILES && st.total == TotalBytes(st.out) <= MAX_TOTAL_BYTES
            && forall i :: 0 <= i < |st.out| ==> GoodInstruction(env, st.out[i])
  {
    hide TextOf, Valid, Trim;
    if roots != [] {
      BudgetsHold(env, roots[..|roots| - 1]);
      var before, after := WithRoots(env, roots[..|roots| - 1]), WithRoots(env, roots);
      if after.out != before.out {
        assert after.out[..|after.out| - 1] == before.out;
      }
    }
  }

  /** Each instruction is of a place that was seen, and no two are of one place. */
  predicate OnePerPlace(env: Environment, st: Loading) {
    && (forall i :: 0 <= i < |st.out| ==>
          env.resolve(st.out[i].projectRoot).Some? && env.resolve(st.out[i].projectRoot).value in st.seen)
    && (forall i, j :: 0 <= i < j < |st.out| ==> env.resolve(st.out[i].projectRoot) != env.resolve(st.out[j].projectRoot))
  }

  lemma WithRootKeepsPlaces(env: Environment, st: Loading, given: string)
    requires OnePerPlace(env, st)
    ensures OnePerPlace(env, WithRoot(env, st, given))
  {
    hide ReadSpec, Trim;
    var next := WithRoot(env, st, given);
    assert forall i :: 0 <= i < |st.out| ==> next.out[i] == st.out[i];
    if |next.out| > |st.out| {
      assert env.resolve(next.out[|st.out|].projectRoot).value !in st.seen;
    }
  }

  /** No place is read twice, under whatever names the roots give it. */
  lemma {:induction false} PlacesAreDistinct(env: Environment, roots: seq<string>)
    ensures OnePerPlace(env, WithRoots(env, roots))
  {
    hide WithRoot, OnePerPlace;
    if roots != [] {
      PlacesAreDistinct(env, roots[..|roots| - 1]);
      WithRootKeepsPlaces(env, WithRoots(env, roots[..|roots| - 1]), roots[|roots| - 1]);
    } else {
      NoPlaces(env);
    }
  }

  lemma NoPlaces(env: Environment)
    ensures OnePerPlace(env, Loading([], {}, 0))
  {
  }

  /** Later roots only add instructions. */
  lemma {:induction false} LaterRootsAdd(env: Environment, roots: seq<string>, i: nat)
    requires i <= |roots|
    ensures WithRoots(env, roots[..i]).out <= WithRoots(env, roots).out
    decreases |roots|
  {
    hide ReadSpec, Trim;
    if i == |roots| {
      assert roots[..i] == roots;
    } else {
      assert roots[..|roots| - 1][..i] == roots[..i];
      LaterRootsAdd(env, roots[..|roots| - 1], i);
    }
  }

  /** A root with a file of text that fits, is measured rightly and is neither blank nor has
      a NUL is loaded whole, unless its place was seen or a budget was used up before. */
  lemma WholeFileIsLoaded(env: Environment, roots: seq<string>, i: nat, file: seq<Byte>)
    requires i < |roots| && Trim(roots[i]) != "" && env.resolve(Trim(roots[i])).Some?
    requires var place := env.resolve(Trim(roots[i])).value;
             && env.regular(place) && env.file(place) == Some(file) && env.size(place) == |file|
             && place !in WithRoots(env, roots[..i]).seen
    requires Valid(file) && 0 !in file && !env.blank(file) && |file| <= MAX_FILE_BYTES
    requires !Full(WithRoots(env, roots[..i])) && WithRoots(env, roots[..i]).total + |file| <= MAX_TOTAL_BYTES
    ensures Instruction(Trim(roots[i]), file, false) in WithRoots(env, roots).out
  {
    hide TextOf, Valid, Trim;
    var before := WithRoots(env, roots[..i]);
    TextIsCutClosely(file, Min(MAX_FILE_BYTES, MAX_TOTAL_BYTES - before.total));
    assert roots[..i + 1][..i] == roots[..i];
    var after := WithRoots(env, roots[..i + 1]);
    assert after.out == before.out + [Instruction(Trim(roots[i]), file, false)];
    LaterRootsAdd(env, roots, i + 1);
    assert after.out[|after.out| - 1] in after.out;
  }

  /** An instruction is what was read of the file of one of the roots, within some limit of at
      most 64 KiB, marked as it was read. */
  ghost predicate ReadFrom(env: Environment, roots: seq<string>, x: Instruction) {
    exists j: nat, limit: nat :: 0 < limit <= MAX_FILE_BYTES && ReadOfRoot(env, roots, x, j, limit)
  }

  ghost predicate ReadOfRoot(env: Environment, roots: seq<string>, x: Instruction, j: nat, limit: nat) {
    && j < |roots| && x.projectRoot == Trim(roots[j]) && env.resolve(x.projectRoot).Some?
    && var place := env.resolve(x.projectRoot).value;
       env.regular(place) && ReadSpec(env.file(place), env.size(place), limit) == Reading(x.content, x.truncated, true)
  }

  /** Nothing is loaded but what reading the given roots' files gives. */
  lemma {:induction false} InstructionsAreRead(env: Environment, roots: seq<string>)
    ensures forall i :: 0 <= i < |WithRoots(env, roots).out| ==> ReadFrom(env, roots, WithRoots(env, roots).out[i])
  {
    hide ReadSpec, Trim;
    if roots != [] {
      var n := |roots| - 1;
      InstructionsAreRead(env, roots[..n]);
      var before, after := WithRoots(env, roots[..n]), WithRoots(env, roots);
      forall i | 0 <= i < |after.out| ensures ReadFrom(env, roots, after.out[i]) {
        if i < |before.out| {
          var j: nat, limit: nat :| 0 < limit <= MAX_FILE_BYTES && ReadOfRoot(env, roots[..n], before.out[i], j, limit);
          assert ReadOfRoot(env, roots, after.out[i], j, limit);
        } else {
          assert ReadOfRoot(env, roots, after.out[i], n, Min(MAX_FILE_BYTES, MAX_TOTAL_BYTES - before.total));
        }
      }
    }
  }
}
