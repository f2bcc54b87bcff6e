/** The dashboard's notion of "where am I": a single string of folder names
    joined by '/', with the empty string for the store root.

    `ChildPath` is the join the folder-click handler performs. `Join` and
    `Split` are an independent segment-level reading of such strings; the
    lemmas connect a run of clicks to `Join`, and `Join` to `Split` in both
    directions, so a path built from the root by a non-empty run of clicks
    whose first name is non-empty and whose names contain no '/' can be read
    back into exactly the names clicked.
 */
module FolderPath {

  const Separator: char := '/'

  /** Path reached by clicking folder `name` while at `cur`: the name alone at
      the root, otherwise the current path, a separator and the name. */
  function ChildPath(cur: string, name: string): (r: string)
    ensures cur == "" ==> r == name
    ensures cur != "" ==> |r| == |cur| + 1 + |name|
    ensures cur != "" ==> r[..|cur|] == cur && r[|cur|] == Separator && r[|cur| + 1..] == name
    ensures cur != "" ==> r != ""
  {
    if cur != "" then cur + [Separator] + name else name
  }

  /** Path reached from `start` by clicking `names` one after the other. */
  function Navigate(start: string, names: seq<string>): string
    decreases |names|
  {
    if names == [] then start
    else ChildPath(Navigate(start, names[..|names| - 1]), names[|names| - 1])
  }

  /** Segments written out with a separator between consecutive ones. */
  function Join(segments: seq<string>): string
    decreases |segments|
  {
    if segments == [] then ""
    else if |segments| == 1 then segments[0]
    else segments[0] + [Separator] + Join(segments[1..])
  }

  /** Cut a path at every separator; the result always has at least one segment. */
  function Split(p: string): (r: seq<string>)
    ensures |r| >= 1
    decreases |p|
  {
    if p == [] then [""]
    else
      var rest := Split(p[1..]);
      if p[0] == Separator then [""] + rest
      else [[p[0]] + rest[0]] + rest[1..]
  }

  predicate NoSeparator(name: string) {
    Separator !in name
  }

  predicate AllPlain(names: seq<string>) {
    forall i :: 0 <= i < |names| ==> NoSeparator(names[i])
  }

  /** Appending a segment adds exactly one separator and the segment. */
  lemma {:induction false} JoinSnoc(segments: seq<string>, name: string)
    requires segments != []
    ensures Join(segments + [name]) == Join(segments) + [Separator] + name
    decreases |segments|
  {
    if |segments| == 1 {
      assert segments + [name] == [segments[0], name];
      assert ([segments[0], name])[1..] == [name];
    } else {
      var tail := segments[1..];
      assert (segments + [name])[1..] == tail + [name];
      JoinSnoc(tail, name);
    }
  }

  /** Clicking from a non-root path appends every name with its own separator. */
  lemma {:induction false} NavigateFromFolder(start: string, names: seq<string>)
    requires start != ""
    ensures Navigate(start, names) == Join([start] + names)
    decreases |names|
  {
    if names == [] {
      assert [start] + names == [start];
    } else {
      var front := names[..|names| - 1];
      var last := names[|names| - 1];
      NavigateFromFolder(start, front);
      assert Navigate(start, front) != "" by {
        JoinNonEmpty([start] + front);
      }
      assert [start] + names == ([start] + front) + [last];
      JoinSnoc([start] + front, last);
    }
  }

  lemma {:induction false} JoinNonEmpty(segments: seq<string>)
    requires segments != [] && segments[0] != ""
    ensures Join(segments) != ""
  {
    if |segments| > 1 {
      assert |Join(segments)| >= |segments[0]|;
    }
  }

  /** From the root, clicking names whose first is non-empty builds exactly
      the joined path. */
  lemma {:induction false} NavigateFromRoot(names: seq<string>)
    requires names != [] && names[0] != ""
    ensures Navigate("", names) == Join(names)
  {
    NavigateFromRootPrefix(names, |names|);
    assert names[..|names|] == names;
  }

  lemma {:induction false} NavigateFromRootPrefix(names: seq<string>, k: nat)
    requires names != [] && names[0] != ""
    requires 1 <= k <= |names|
    ensures Navigate("", names[..k]) == Join(names[..k])
    decreases k
  {
    if k == 1 {
      assert names[..1] == [names[0]];
      assert names[..1][..0] == [];
    } else {
      var front := names[..k - 1];
      assert names[..k][..k - 1] == front;
      NavigateFromRootPrefix(names, k - 1);
      assert front[0] == names[0];
      JoinNonEmpty(front);
      assert names[..k] == front + [names[k - 1]];
      JoinSnoc(front, names[k - 1]);
    }
  }

  /** A string with no separator is a single segment. */
  lemma {:induction false} SplitPlain(name: string)
    requires NoSeparator(name)
    ensures Split(name) == [name]
    decreases |name|
  {
    if name != [] {
      assert NoSeparator(name[1..]) by {
        forall c | c in name[1..] ensures c != Separator {
          assert c in name;
        }
      }
      SplitPlain(name[1..]);
      assert [name[0]] + name[1..] == name;
    }
  }

  /** Splitting at the first separator after a plain segment peels it off. */
  lemma {:induction false} SplitCons(head: string, rest: string)
    requires NoSeparator(head)
    ensures Split(head + [Separator] + rest) == [head] + Split(rest)
    decreases |head|
  {
    var p := head + [Separator] + rest;
    if head == [] {
      assert p == [Separator] + rest;
      assert p[1..] == rest;
    } else {
      assert NoSeparator(head[1..]) by {
        forall c | c in head[1..] ensures c != Separator {
          assert c in head;
        }
      }
      assert p[1..] == head[1..] + [Separator] + rest;
      SplitCons(head[1..], rest);
      assert [head[0]] + head[1..] == head;
    }
  }

  /** Reading a joined path back gives the segments, as long as none of them
      contains the separator. */
  lemma {:induction false} SplitJoin(segments: seq<string>)
    requires segments != []
    requires AllPlain(segments)
    ensures Split(Join(segments)) == segments
    decreases |segments|
  {
    assert NoSeparator(segments[0]);
    if |segments| == 1 {
      SplitPlain(segments[0]);
    } else {
      var tail := segments[1..];
      assert AllPlain(tail) by {
        forall i | 0 <= i < |tail| ensures NoSeparator(tail[i]) {
          assert tail[i] == segments[i + 1];
        }
      }
      SplitJoin(tail);
      SplitCons(segments[0], Join(tail));
      assert [segments[0]] + tail == segments;
    }
  }

  /** Every segment that `Split` produces is free of separators. */
  lemma {:induction false} SplitPlainSegments(p: string)
    ensures AllPlain(Split(p))
    decreases |p|
  {
    if p != [] {
      SplitPlainSegments(p[1..]);
      var rest := Split(p[1..]);
      if p[0] == Separator {
        var r := [""] + rest;
        forall i | 0 <= i < |r| ensures NoSeparator(r[i]) {
          if i > 0 { assert r[i] == rest[i - 1]; }
        }
      } else {
        var r := [[p[0]] + rest[0]] + rest[1..];
        forall i | 0 <= i < |r| ensures NoSeparator(r[i]) {
          if i == 0 {
            assert NoSeparator(rest[0]);
          } else {
            assert r[i] == rest[i];
          }
        }
      }
    }
  }

  /** Joining the pieces of any path restores it: `Split` loses nothing. */
  lemma {:induction false} JoinSplit(p: string)
    ensures Join(Split(p)) == p
    decreases |p|
  {
    if p != [] {
      var rest := Split(p[1..]);
      JoinSplit(p[1..]);
      if p[0] == Separator {
        assert Join([""] + rest) == "" + [Separator] + Join(rest) by {
          assert ([""] + rest)[1..] == rest;
        }
        assert p == [p[0]] + p[1..];
      } else {
        var r := [[p[0]] + rest[0]] + rest[1..];
        if |rest| == 1 {
          assert Join(r) == [p[0]] + rest[0];
        } else {
          assert r[1..] == rest[1..];
          assert Join(rest) == rest[0] + [Separator] + Join(rest[1..]);
        }
        assert p == [p[0]] + p[1..];
      }
    }
  }

  /** The location reached from the root by a non-empty run of clicks on
      plain names, the first of them non-empty, reads back as exactly the
      names clicked: no two different such runs collide. */
  lemma ClicksRecoverable(names: seq<string>)
    requires names != [] && names[0] != ""
    requires AllPlain(names)
    ensures Split(Navigate("", names)) == names
  {
    NavigateFromRoot(names);
    SplitJoin(names);
  }

  /** Clicking "a", "b", "c" in turn from the root reaches "a/b/c". */
  lemma ThreeClicks()
    ensures Navigate("", ["a", "b", "c"]) == "a/b/c"
  {
    NavigateFromRoot(["a", "b", "c"]);
  }

  /** A folder whose name holds the separator is indistinguishable from two
      nested folders: the string path cannot tell them apart. */
  lemma SeparatorInNameCollides()
    ensures Navigate("", ["a/b"]) == Navigate("", ["a", "b"])
    ensures Split(Navigate("", ["a/b"])) == ["a", "b"]
  {
    NavigateFromRoot(["a", "b"]);
    assert Navigate("", ["a/b"]) == "a/b";
    SplitCons("a", "b");
    SplitPlain("b");
  }
}
