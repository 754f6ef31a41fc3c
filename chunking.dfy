/**
 * `chunkText`: cutting a summary into messages at line boundaries, packing
 * lines greedily. A line is never split, however long it is.
 */
module Chunking {
  import opened Text

  /** The default `maxLength`, kept below Telegram's 4096-character ceiling. */
  const MaxLength: int := 3800

  /** What a group of lines adds to the running `len`: each line's `length` (UTF-16 units) plus one. */
  function Weight(group: seq<string>): nat
  {
    if group == [] then 0 else Weight(group[..|group| - 1]) + Utf16Length(group[|group| - 1]) + 1
  }

  /**
   * The groups the loop produces from the remaining `lines` when `cur` is
   * the group being filled: a line that would take the weight past
   * `maxLength` closes `cur` (even an empty one) and opens a new group.
   */
  function Pack(lines: seq<string>, maxLength: int, cur: seq<string>): seq<seq<string>>
  {
    if lines == [] then (if cur != [] then [cur] else [])
    else if Weight(cur) + Utf16Length(lines[0]) + 1 > maxLength then [cur] + Pack(lines[1..], maxLength, [lines[0]])
    else Pack(lines[1..], maxLength, cur + [lines[0]])
  }

  function Groups(lines: seq<string>, maxLength: int): seq<seq<string>>
  {
    Pack(lines, maxLength, [])
  }

  function JoinEach(groups: seq<seq<string>>): seq<string>
  {
    if groups == [] then [] else [JoinLines(groups[0])] + JoinEach(groups[1..])
  }

  function Flatten<T>(groups: seq<seq<T>>): seq<T>
  {
    if groups == [] then [] else groups[0] + Flatten(groups[1..])
  }

  /** The chunks of `text`: its lines, grouped, each group joined again. */
  function Chunks(text: string, maxLength: int): seq<string>
  {
    JoinEach(Groups(SplitLines(text), maxLength))
  }

  /** `chunkText(text, maxLength)`: the loop over lines with `cur`, `len` and `chunks`. */
  method ChunkText(text: string, maxLength: int) returns (chunks: seq<string>)
    ensures chunks == Chunks(text, maxLength)
  {
    var lines := SplitLines(text);
    ghost var target := Chunks(text, maxLength);
    assert lines[0..] == lines;
    chunks := [];
    var cur: seq<string> := [];
    var len := 0;
    for i := 0 to |lines|
      invariant len == Weight(cur)
      invariant chunks + JoinEach(Pack(lines[i..], maxLength, cur)) == target
    {
      var line := lines[i];
      ChunkStep(chunks, lines, i, maxLength, cur, target);
      if len + Utf16Length(line) + 1 > maxLength {
        chunks := chunks + [JoinLines(cur)];
        cur := [];
        len := 0;
      }
      WeightSnoc(cur, line);
      cur := cur + [line];
      len := len + Utf16Length(line) + 1;
    }
    ChunkLast(chunks, lines, maxLength, cur, target);
    if |cur| > 0 {
      chunks := chunks + [JoinLines(cur)];
    }
  }

  /** One iteration of the loop: the line either closes the open group and opens a new one, or joins it. */
  lemma ChunkStep(chunks: seq<string>, lines: seq<string>, i: nat, maxLength: int, cur: seq<string>, target: seq<string>)
    requires i < |lines|
    requires chunks + JoinEach(Pack(lines[i..], maxLength, cur)) == target
    ensures Weight(cur) + Utf16Length(lines[i]) + 1 > maxLength ==>
      (chunks + [JoinLines(cur)]) + JoinEach(Pack(lines[i + 1..], maxLength, [] + [lines[i]])) == target
    ensures Weight(cur) + Utf16Length(lines[i]) + 1 <= maxLength ==>
      chunks + JoinEach(Pack(lines[i + 1..], maxLength, cur + [lines[i]])) == target
  {
    assert lines[i..][0] == lines[i] && lines[i..][1..] == lines[i + 1..];
    assert [] + [lines[i]] == [lines[i]];
    if Weight(cur) + Utf16Length(lines[i]) + 1 > maxLength {
      var rest := JoinEach(Pack(lines[i + 1..], maxLength, [lines[i]]));
      JoinEachCons(cur, Pack(lines[i + 1..], maxLength, [lines[i]]));
      assert chunks + ([JoinLines(cur)] + rest) == (chunks + [JoinLines(cur)]) + rest;
    }
  }

  /** After the last line only the open group is left, and it becomes a chunk when it is not empty. */
  lemma ChunkLast(chunks: seq<string>, lines: seq<string>, maxLength: int, cur: seq<string>, target: seq<string>)
    requires chunks + JoinEach(Pack(lines[|lines|..], maxLength, cur)) == target
    ensures (if |cur| > 0 then chunks + [JoinLines(cur)] else chunks) == target
  {
    assert lines[|lines|..] == [];
    if |cur| > 0 {
      JoinEachCons(cur, []);
    } else {
      assert chunks + [] == chunks;
    }
  }

  lemma JoinEachCons(group: seq<string>, groups: seq<seq<string>>)
    ensures JoinEach([group] + groups) == [JoinLines(group)] + JoinEach(groups)
  {
    assert ([group] + groups)[1..] == groups;
  }

  lemma WeightSnoc(group: seq<string>, line: string)
    ensures Weight(group + [line]) == Weight(group) + Utf16Length(line) + 1
  {
    assert (group + [line])[..|group|] == group;
  }

  lemma {:induction false} JoinEachShape(groups: seq<seq<string>>)
    ensures |JoinEach(groups)| == |groups|
    ensures forall k :: 0 <= k < |groups| ==> JoinEach(groups)[k] == JoinLines(groups[k])
  {
    if groups != [] {
      JoinEachShape(groups[1..]);
      var j := JoinEach(groups);
      forall k | 1 <= k < |groups| ensures j[k] == JoinLines(groups[k]) {
        assert j[k] == JoinEach(groups[1..])[k - 1];
      }
    }
  }

  /** The groups hold the open group followed by every remaining line, in order. */
  lemma {:induction false} PackFlatten(lines: seq<string>, maxLength: int, cur: seq<string>)
    ensures Flatten(Pack(lines, maxLength, cur)) == cur + lines
  {
    if lines == [] {
      assert cur + lines == cur;
      if cur != [] {
        assert Flatten([cur]) == cur + Flatten([]);
      }
    } else {
      var rest := lines[1..];
      assert [lines[0]] + rest == lines;
      if Weight(cur) + Utf16Length(lines[0]) + 1 > maxLength {
        PackFlatten(rest, maxLength, [lines[0]]);
        var p := Pack(lines, maxLength, cur);
        assert p[0] == cur && p[1..] == Pack(rest, maxLength, [lines[0]]);
      } else {
        PackFlatten(rest, maxLength, cur + [lines[0]]);
      }
    }
  }

  /** With a non-empty open group, every group is non-empty and the first one starts with it. */
  lemma {:induction false} PackFromOpenGroup(lines: seq<string>, maxLength: int, cur: seq<string>)
    requires cur != []
    ensures |Pack(lines, maxLength, cur)| >= 1
    ensures |Pack(lines, maxLength, cur)[0]| >= |cur| && Pack(lines, maxLength, cur)[0][..|cur|] == cur
    ensures forall k :: 0 <= k < |Pack(lines, maxLength, cur)| ==> Pack(lines, maxLength, cur)[k] != []
  {
    if lines != [] {
      var rest := lines[1..];
      if Weight(cur) + Utf16Length(lines[0]) + 1 > maxLength {
        PackFromOpenGroup(rest, maxLength, [lines[0]]);
      } else {
        PackFromOpenGroup(rest, maxLength, cur + [lines[0]]);
        var g := Pack(rest, maxLength, cur + [lines[0]])[0];
        assert g[..|cur|] == (cur + [lines[0]])[..|cur|];
      }
    }
  }

  /** A group of two or more lines does not weigh more than `maxLength`. */
  predicate WithinLimit(group: seq<string>, maxLength: int)
  {
    |group| >= 2 ==> Weight(group) <= maxLength
  }

  /** Group `k` was closed because the first line of group `k + 1` did not fit. */
  predicate ClosedByOverflow(groups: seq<seq<string>>, maxLength: int, k: nat)
    requires k + 1 < |groups|
  {
    groups[k + 1] != [] && Weight(groups[k]) + Utf16Length(groups[k + 1][0]) + 1 > maxLength
  }

  lemma {:induction false} PackMultiLineWeight(lines: seq<string>, maxLength: int, cur: seq<string>)
    requires WithinLimit(cur, maxLength)
    ensures forall k :: 0 <= k < |Pack(lines, maxLength, cur)| ==> WithinLimit(Pack(lines, maxLength, cur)[k], maxLength)
  {
    if lines != [] {
      var rest := lines[1..];
      var next := cur + [lines[0]];
      if Weight(cur) + Utf16Length(lines[0]) + 1 > maxLength {
        PackMultiLineWeight(rest, maxLength, [lines[0]]);
        var p := Pack(lines, maxLength, cur);
        var q := Pack(rest, maxLength, [lines[0]]);
        assert p == [cur] + q;
        forall k | 0 <= k < |p| ensures WithinLimit(p[k], maxLength) {
          if k > 0 {
            assert p[k] == q[k - 1];
          }
        }
      } else {
        assert next[..|next| - 1] == cur;
        PackMultiLineWeight(rest, maxLength, next);
      }
    }
  }

  /** Each group but the last was closed because the next line did not fit: the packing is greedy. */
  lemma {:induction false} PackGreedy(lines: seq<string>, maxLength: int, cur: seq<string>)
    ensures forall k: nat :: k + 1 < |Pack(lines, maxLength, cur)| ==> ClosedByOverflow(Pack(lines, maxLength, cur), maxLength, k)
  {
    if lines != [] {
      var rest := lines[1..];
      if Weight(cur) + Utf16Length(lines[0]) + 1 > maxLength {
        PackGreedy(rest, maxLength, [lines[0]]);
        PackFromOpenGroup(rest, maxLength, [lines[0]]);
        var p := Pack(lines, maxLength, cur);
        var q := Pack(rest, maxLength, [lines[0]]);
        assert p == [cur] + q;
        assert q[0][..1] == [lines[0]];
        forall k: nat | k + 1 < |p| ensures ClosedByOverflow(p, maxLength, k) {
          if k > 0 {
            assert ClosedByOverflow(q, maxLength, k - 1);
            assert p[k] == q[k - 1] && p[k + 1] == q[k];
          } else {
            assert p[1] == q[0] && q[0][0] == lines[0];
          }
        }
      } else {
        PackGreedy(rest, maxLength, cur + [lines[0]]);
      }
    }
  }

  /** A joined group is one character shorter than its weight. */
  lemma {:induction false} JoinedLength(group: seq<string>)
    requires group != []
    ensures Utf16Length(JoinLines(group)) + 1 == Weight(group)
  {
    if |group| > 1 {
      JoinedLength(group[1..]);
      WeightCons(group);
      Utf16LengthAppend(group[0], "\n");
      Utf16LengthAppend(group[0] + "\n", JoinLines(group[1..]));
      assert Utf16Length("\n") == 1;
    } else {
      assert group[..0] == [];
    }
  }

  lemma {:induction false} WeightCons(group: seq<string>)
    requires group != []
    ensures Weight(group) == Utf16Length(group[0]) + 1 + Weight(group[1..])
  {
    if |group| > 1 {
      var init := group[..|group| - 1];
      WeightCons(init);
      assert init[1..] == group[1..][..|group[1..]| - 1];
      assert init[0] == group[0];
    } else {
      assert group[1..] == [] && group[..0] == [];
    }
  }

  /** Joining the chunks of non-empty groups with newlines joins all their lines. */
  lemma {:induction false} JoinGroups(groups: seq<seq<string>>)
    requires forall k :: 0 <= k < |groups| ==> groups[k] != []
    ensures JoinLines(JoinEach(groups)) == JoinLines(Flatten(groups))
  {
    if |groups| == 1 {
      assert Flatten(groups) == groups[0] + Flatten([]);
      assert groups[0] + [] == groups[0];
    } else if |groups| > 1 {
      JoinGroups(groups[1..]);
      JoinEachShape(groups[1..]);
      FlattenNonEmpty(groups[1..]);
      JoinAppend(groups[0], Flatten(groups[1..]));
    }
  }

  lemma {:induction false} FlattenNonEmpty<T>(groups: seq<seq<T>>)
    requires |groups| >= 1 && groups[0] != []
    ensures |Flatten(groups)| >= 1
  {
  }

  /** The chunks' lines, in order, are exactly the lines of the text. */
  lemma ChunksCoverLines(text: string, maxLength: int)
    ensures |Chunks(text, maxLength)| == |Groups(SplitLines(text), maxLength)|
    ensures Flatten(Groups(SplitLines(text), maxLength)) == SplitLines(text)
    ensures forall k :: 0 <= k < |Chunks(text, maxLength)| ==>
      Chunks(text, maxLength)[k] == JoinLines(Groups(SplitLines(text), maxLength)[k])
  {
    JoinEachShape(Groups(SplitLines(text), maxLength));
    PackFlatten(SplitLines(text), maxLength, []);
  }

  /**
   * There is always a chunk. Only the first group can be empty, and it is
   * exactly when the first line with its newline does not fit.
   */
  lemma ChunksStart(text: string, maxLength: int)
    ensures |Chunks(text, maxLength)| >= 1
    ensures Groups(SplitLines(text), maxLength)[0] == [] <==> Utf16Length(SplitLines(text)[0]) + 1 > maxLength
    ensures Groups(SplitLines(text), maxLength)[0] == [] ==> Chunks(text, maxLength)[0] == ""
    ensures forall k :: 1 <= k < |Groups(SplitLines(text), maxLength)| ==> Groups(SplitLines(text), maxLength)[k] != []
  {
    var lines := SplitLines(text);
    JoinEachShape(Groups(lines, maxLength));
    assert Weight([]) == 0;
    var rest := lines[1..];
    if Utf16Length(lines[0]) + 1 > maxLength {
      PackFromOpenGroup(rest, maxLength, [lines[0]]);
      var g := Groups(lines, maxLength);
      forall k | 1 <= k < |g| ensures g[k] != [] {
        assert g[k] == Pack(rest, maxLength, [lines[0]])[k - 1];
      }
    } else {
      assert [] + [lines[0]] == [lines[0]];
      PackFromOpenGroup(rest, maxLength, [lines[0]]);
    }
  }

  /** A chunk made of two or more lines is at most `maxLength - 1` characters long. */
  lemma ChunkBound(text: string, maxLength: int, k: nat)
    requires k < |Groups(SplitLines(text), maxLength)| && |Groups(SplitLines(text), maxLength)[k]| >= 2
    ensures k < |Chunks(text, maxLength)| && Utf16Length(Chunks(text, maxLength)[k]) <= maxLength - 1
  {
    var g := Groups(SplitLines(text), maxLength);
    PackMultiLineWeight(SplitLines(text), maxLength, []);
    JoinEachShape(g);
    JoinedLength(g[k]);
  }

  /** Each chunk but the last was closed only because the next line would not fit. */
  lemma ChunksGreedy(text: string, maxLength: int)
    ensures forall k: nat :: k + 1 < |Groups(SplitLines(text), maxLength)| ==>
      ClosedByOverflow(Groups(SplitLines(text), maxLength), maxLength, k)
  {
    PackGreedy(SplitLines(text), maxLength, []);
  }

  /**
   * Joining the chunks with newlines gives back the text when the first line
   * fits; otherwise the leading empty chunk adds one newline in front.
   */
  lemma ChunksRoundTrip(text: string, maxLength: int)
    ensures Utf16Length(SplitLines(text)[0]) + 1 <= maxLength ==> JoinLines(Chunks(text, maxLength)) == text
    ensures Utf16Length(SplitLines(text)[0]) + 1 > maxLength ==> JoinLines(Chunks(text, maxLength)) == "\n" + text
  {
    var lines := SplitLines(text);
    var g := Groups(lines, maxLength);
    ChunksStart(text, maxLength);
    PackFlatten(lines, maxLength, []);
    JoinSplit(text);
    assert Chunks(text, maxLength) == JoinEach(g);
    assert g == Pack(lines, maxLength, []) && [] + lines == lines;
    assert Flatten(g) == lines;
    if Utf16Length(lines[0]) + 1 <= maxLength {
      JoinGroups(g);
    } else {
      assert |g| >= 2 by {
        PackFromOpenGroup(lines[1..], maxLength, [lines[0]]);
      }
      JoinLeadingEmpty(g);
    }
  }

  /** A leading empty group adds one line break in front of the joined text. */
  lemma JoinLeadingEmpty(groups: seq<seq<string>>)
    requires |groups| >= 2 && groups[0] == []
    requires forall k :: 1 <= k < |groups| ==> groups[k] != []
    ensures JoinLines(JoinEach(groups)) == "\n" + JoinLines(Flatten(groups))
  {
    var rest := groups[1..];
    assert Flatten(groups) == [] + Flatten(rest);
    JoinGroups(rest);
    JoinEachShape(rest);
    var j := JoinEach(groups);
    assert j == [""] + JoinEach(rest);
    assert j[1..] == JoinEach(rest);
    assert JoinLines(j) == "" + "\n" + JoinLines(JoinEach(rest));
    assert Flatten(groups) == Flatten(rest);
    assert "" + "\n" + JoinLines(Flatten(rest)) == "\n" + JoinLines(Flatten(rest));
  }

  /**
   * Lines are weighed in UTF-16 units: a teacup emoji counts 2, so with limit
   * 4 the line after it no longer fits (2 + 1 + 1 + 1 > 4).
   */
  lemma AstralCharCountsTwice()
    ensures Chunks("\U{1F375}\na", 4) == ["\U{1F375}", "a"]
  {
    assert JoinLines(["\U{1F375}", "a"]) == "\U{1F375}\na";
    SplitJoin(["\U{1F375}", "a"]);
    assert Utf16Length("\U{1F375}") == 2;
    assert Utf16Length("a") == 1;
    assert Weight(["\U{1F375}"]) == 3;
    assert Groups(["\U{1F375}", "a"], 4) == [["\U{1F375}"], ["a"]];
  }

  /**
   * A line longer than the limit is not cut: `"aaaaa"` with limit 4 gives a
   * leading empty chunk and then the whole line as one chunk.
   */
  lemma LongLineNotSplit()
    ensures Chunks("aaaaa", 4) == ["", "aaaaa"]
  {
    SplitJoin(["aaaaa"]);
    assert Utf16Length("aaaaa") == 5;
    assert Groups(["aaaaa"], 4) == [[], ["aaaaa"]];
  }

  /** An empty chunk can also come later, from an empty last line: `"aaa\n"` with limit 4. */
  lemma EmptyChunkFromEmptyLine()
    ensures Chunks("aaa\n", 4) == ["aaa", ""]
  {
    assert JoinLines(["aaa", ""]) == "aaa\n";
    SplitJoin(["aaa", ""]);
    assert Utf16Length("aaa") == 3;
    assert Weight(["aaa"]) == 4;
    assert Groups(["aaa", ""], 4) == [["aaa"], [""]];
  }
}
