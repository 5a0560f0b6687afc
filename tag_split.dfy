/**
  Java's `String.split(";")` as the indexer uses it on the `tags` value: the
  string is cut at every ';', trailing empty segments are dropped, and a string
  without any ';' comes back whole, even when it is empty.
*/
module TagSplit {

  const SEPARATOR: char := ';'

  /** Number of separators in `s`. */
  function SeparatorCount(s: string): nat {
    if s == [] then 0 else (if s[0] == SEPARATOR then 1 else 0) + SeparatorCount(s[1..])
  }

  /** Every ';'-delimited segment of `s`, empty ones included. */
  function Segments(s: string): (r: seq<string>)
    ensures |r| == SeparatorCount(s) + 1
    ensures forall i | 0 <= i < |r| :: SEPARATOR !in r[i]
  {
    if s == [] then [""]
    else
      var rest := Segments(s[1..]);
      if s[0] == SEPARATOR then [""] + rest
      else [[s[0]] + rest[0]] + rest[1..]
  }

  /** The pieces glued back together with ';' between neighbours. */
  function Join(pieces: seq<string>): string {
    if |pieces| == 0 then ""
    else if |pieces| == 1 then pieces[0]
    else pieces[0] + [SEPARATOR] + Join(pieces[1..])
  }

  /** `n` empty strings. */
  function Empties(n: nat): (r: seq<string>)
    ensures |r| == n && forall i | 0 <= i < n :: r[i] == ""
  {
    if n == 0 then [] else Empties(n - 1) + [""]
  }

  /** Removes the empty strings at the end of `p`. */
  function DropTrailingEmpty(p: seq<string>): (r: seq<string>)
    ensures |r| <= |p| && r == p[..|r|]
    ensures forall i | |r| <= i < |p| :: p[i] == ""
    ensures r != [] ==> r[|r| - 1] != ""
  {
    if p == [] then []
    else if p[|p| - 1] == "" then DropTrailingEmpty(p[..|p| - 1])
    else p
  }

  /** `s.split(";")`. */
  function JavaSplit(s: string): seq<string> {
    if SEPARATOR !in s then [s] else DropTrailingEmpty(Segments(s))
  }

  lemma {:induction false} SeparatorCountZero(s: string)
    ensures SeparatorCount(s) == 0 <==> SEPARATOR !in s
  {
    if s != [] {
      SeparatorCountZero(s[1..]);
      assert s == [s[0]] + s[1..];
    }
  }

  /** Joining the segments gives back the original string. */
  lemma {:induction false} JoinSegments(s: string)
    ensures Join(Segments(s)) == s
  {
    if s != [] {
      var rest := Segments(s[1..]);
      JoinSegments(s[1..]);
      if s[0] == SEPARATOR {
        assert ([""] + rest)[1..] == rest;
      } else {
        var r := [[s[0]] + rest[0]] + rest[1..];
        assert s == [s[0]] + s[1..];
        if |rest| == 1 {
          assert r == [s];
        } else {
          assert r[1..] == rest[1..];
          assert Join(rest) == rest[0] + [SEPARATOR] + Join(rest[1..]);
        }
      }
    }
  }

  /**
    What `split` returns: no piece contains ';'; without a ';' the whole string
    is the only piece; otherwise the pieces are the segments with the trailing
    empty ones removed, so the last piece is never empty, and the removed
    segments are exactly the empty tail.
  */
  lemma JavaSplitShape(s: string)
    ensures forall i | 0 <= i < |JavaSplit(s)| :: SEPARATOR !in JavaSplit(s)[i]
    ensures SEPARATOR !in s ==> JavaSplit(s) == [s]
    ensures SEPARATOR in s ==>
      && |JavaSplit(s)| <= SeparatorCount(s) + 1
      && JavaSplit(s) + Empties(SeparatorCount(s) + 1 - |JavaSplit(s)|) == Segments(s)
      && (JavaSplit(s) != [] ==> JavaSplit(s)[|JavaSplit(s)| - 1] != "")
  {
    if SEPARATOR in s {
      PaddedSplitIsSegments(s);
      var seg, pieces := Segments(s), JavaSplit(s);
      forall i | 0 <= i < |pieces|
        ensures SEPARATOR !in pieces[i]
      {
        assert pieces[i] == seg[i];
      }
    }
  }

  /** Round trip: the pieces, padded with the dropped empty segments, join back to `s`. */
  lemma JavaSplitRoundTrip(s: string)
    ensures |JavaSplit(s)| <= SeparatorCount(s) + 1
    ensures Join(JavaSplit(s) + Empties(SeparatorCount(s) + 1 - |JavaSplit(s)|)) == s
  {
    if SEPARATOR !in s {
      SeparatorCountZero(s);
      assert JavaSplit(s) + Empties(0) == [s];
    } else {
      PaddedSplitIsSegments(s);
      JoinSegments(s);
    }
  }

  lemma PaddedSplitIsSegments(s: string)
    requires SEPARATOR in s
    ensures |JavaSplit(s)| <= SeparatorCount(s) + 1
    ensures JavaSplit(s) + Empties(SeparatorCount(s) + 1 - |JavaSplit(s)|) == Segments(s)
  {
    var seg := Segments(s);
    RestorePadding(seg);
    assert JavaSplit(s) == DropTrailingEmpty(seg) && |seg| == SeparatorCount(s) + 1;
  }

  /** Putting back as many empty strings as were dropped restores the sequence. */
  lemma {:induction false} RestorePadding(p: seq<string>)
    ensures DropTrailingEmpty(p) + Empties(|p| - |DropTrailingEmpty(p)|) == p
  {
    if p != [] && p[|p| - 1] == "" {
      var q := p[..|p| - 1];
      RestorePadding(q);
      var r := DropTrailingEmpty(q);
      assert Empties(|p| - |r|) == Empties(|q| - |r|) + [""];
      assert r + Empties(|p| - |r|) == (r + Empties(|q| - |r|)) + [""];
      assert q + [""] == p;
    } else {
      assert Empties(0) == [];
    }
  }

  /** Interior empty segments are kept: "a;;b" gives "a", "", "b". */
  lemma SplitKeepsInteriorEmpty()
    ensures JavaSplit("a;;b") == ["a", "", "b"]
  {
    assert Segments("b") == ["b"] by {
      assert "b"[1..] == "" && "b"[0] == 'b' && ['b'] + "" == "b";
      assert [""][1..] == [];
    }
    assert Segments(";b") == ["", "b"] by { assert ";b"[1..] == "b"; }
    assert Segments(";;b") == ["", "", "b"] by { assert ";;b"[1..] == ";b"; }
    assert Segments("a;;b") == ["a", "", "b"] by {
      assert "a;;b"[1..] == ";;b" && "a;;b"[0] == 'a' && ['a'] + "" == "a";
      assert ["", "", "b"][1..] == ["", "b"];
    }
    assert "a;;b"[1] == SEPARATOR;
  }

  /** Trailing empty segments are dropped: "a;b;;" gives "a", "b". */
  lemma SplitDropsTrailingEmpty()
    ensures JavaSplit("a;b;;") == ["a", "b"]
  {
    assert Segments(";") == ["", ""] by { assert ";"[1..] == ""; }
    assert Segments(";;") == ["", "", ""] by { assert ";;"[1..] == ";"; }
    assert Segments("b;;") == ["b", "", ""] by {
      assert "b;;"[1..] == ";;" && "b;;"[0] == 'b' && ['b'] + "" == "b";
      assert ["", "", ""][1..] == ["", ""];
    }
    assert Segments(";b;;") == ["", "b", "", ""] by { assert ";b;;"[1..] == "b;;"; }
    assert Segments("a;b;;") == ["a", "b", "", ""] by {
      assert "a;b;;"[1..] == ";b;;" && "a;b;;"[0] == 'a' && ['a'] + "" == "a";
      assert ["", "b", "", ""][1..] == ["b", "", ""];
    }
    assert "a;b;;"[1] == SEPARATOR;
    assert DropTrailingEmpty(["a", "b", "", ""]) == ["a", "b"] by {
      assert ["a", "b", "", ""][..3] == ["a", "b", ""];
      assert ["a", "b", ""][..2] == ["a", "b"];
    }
  }

  /** The empty string has no separator and yields one empty piece; ";" yields none. */
  lemma SplitEmptyAndLoneSeparator()
    ensures JavaSplit("") == [""]
    ensures JavaSplit(";") == []
  {
    assert Segments(";") == ["", ""] by { assert ";"[1..] == ""; }
    assert ";"[0] == SEPARATOR;
    assert DropTrailingEmpty(["", ""]) == [] by {
      assert ["", ""][..1] == [""];
      assert [""][..0] == [];
    }
  }

  /** "a;b;c" gives "a", "b", "c". */
  lemma SplitThreeTags()
    ensures JavaSplit("a;b;c") == ["a", "b", "c"]
  {
    assert Segments("c") == ["c"] by {
      assert "c"[1..] == "" && "c"[0] == 'c' && ['c'] + "" == "c";
      assert [""][1..] == [];
    }
    assert Segments(";c") == ["", "c"] by { assert ";c"[1..] == "c"; }
    assert Segments("b;c") == ["b", "c"] by {
      assert "b;c"[1..] == ";c" && "b;c"[0] == 'b' && ['b'] + "" == "b";
      assert ["", "c"][1..] == ["c"];
    }
    assert Segments(";b;c") == ["", "b", "c"] by { assert ";b;c"[1..] == "b;c"; }
    assert Segments("a;b;c") == ["a", "b", "c"] by {
      assert "a;b;c"[1..] == ";b;c" && "a;b;c"[0] == 'a' && ['a'] + "" == "a";
      assert ["", "b", "c"][1..] == ["b", "c"];
    }
    assert "a;b;c"[1] == SEPARATOR;
  }
}
