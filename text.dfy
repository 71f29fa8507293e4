/**
 * The JavaScript string operations the components rely on: `toLowerCase`,
 * `split(/\s+/)`, `includes`, `startsWith`, `trim` and `Array.prototype.join`.
 *
 * Lower-casing is modelled on the ASCII letters and whitespace on the ASCII
 * members of `\s` (space, tab, line feed, vertical tab, form feed, carriage
 * return); the full Unicode tables are abstracted away.
 */
module Text {

  /** ASCII lower-casing of one character. */
  function Lower(c: char): char {
    if 'A' <= c <= 'Z' then (c as int + 32) as char else c
  }

  /** `s.toLowerCase()`: each character lower-cased, nothing else changed. */
  function LowerStr(s: string): (r: string)
    ensures |r| == |s|
    ensures forall i :: 0 <= i < |s| ==> r[i] == Lower(s[i])
  {
    seq(|s|, i requires 0 <= i < |s| => Lower(s[i]))
  }

  /** Lower-casing works character by character, so it distributes over concatenation. */
  lemma LowerStrAppend(a: string, b: string)
    ensures LowerStr(a + b) == LowerStr(a) + LowerStr(b)
  {
  }

  /** A string that lower-casing leaves unchanged. */
  predicate IsLowerCase(s: string) {
    forall i :: 0 <= i < |s| ==> Lower(s[i]) == s[i]
  }

  /** Lower-casing is idempotent: its result is already lower case. */
  lemma LowerStrIsLowerCase(s: string)
    ensures IsLowerCase(LowerStr(s))
    ensures LowerStr(LowerStr(s)) == LowerStr(s)
  {
  }

  /** A lower-case string is its own lower-casing. */
  lemma LowerStrOfLowerCase(s: string)
    requires IsLowerCase(s)
    ensures LowerStr(s) == s
  {
  }

  /** The characters matched by `\s` (ASCII part). */
  predicate IsSpace(c: char) {
    c == ' ' || c == '\t' || c == '\n' || c == '\r' || c as int == 11 || c as int == 12
  }

  /** A string holding no whitespace character. */
  predicate NoSpace(s: string) {
    forall i :: 0 <= i < |s| ==> !IsSpace(s[i])
  }

  /** A string made only of whitespace (the empty string included). */
  predicate IsBlank(s: string) {
    forall i :: 0 <= i < |s| ==> IsSpace(s[i])
  }

  /** `s.trimStart()`: drops the leading whitespace run and nothing more. */
  function TrimStart(s: string): (r: string)
    ensures |r| <= |s| && r == s[|s| - |r|..]
    ensures forall i :: 0 <= i < |s| - |r| ==> IsSpace(s[i])
    ensures r == [] || !IsSpace(r[0])
  {
    if s == [] || !IsSpace(s[0]) then s else TrimStart(s[1..])
  }

  /** `s.trimEnd()`: drops the trailing whitespace run and nothing more. */
  function TrimEnd(s: string): (r: string)
    ensures |r| <= |s| && r == s[..|r|]
    ensures forall i :: |r| <= i < |s| ==> IsSpace(s[i])
    ensures r == [] || !IsSpace(r[|r| - 1])
  {
    if s == [] || !IsSpace(s[|s| - 1]) then s else TrimEnd(s[..|s| - 1])
  }

  /** A slice made only of whitespace characters is blank. */
  lemma BlankSlice(s: string, lo: int, hi: int)
    requires 0 <= lo <= hi <= |s|
    requires forall i :: lo <= i < hi ==> IsSpace(s[i])
    ensures IsBlank(s[lo..hi])
  {
    assert forall i :: 0 <= i < hi - lo ==> s[lo..hi][i] == s[lo + i];
  }

  /**
   * `s.trim()`: the piece of `s` left once the whitespace before and after it
   * is dropped, with non-space ends; empty exactly when `s` is blank.
   */
  function Trim(s: string): (r: string)
    ensures exists k :: OccursAt(s, r, k) && IsBlank(s[..k]) && IsBlank(s[k + |r|..])
    ensures r == [] || (!IsSpace(r[0]) && !IsSpace(r[|r| - 1]))
    ensures r == [] <==> IsBlank(s)
  {
    var e := TrimEnd(s);
    var r := TrimStart(e);
    var k := |e| - |r|;
    assert OccursAt(s, r, k);
    BlankSlice(s, 0, k);
    BlankSlice(s, |e|, |s|);
    assert r != [] ==> r[|r| - 1] == e[|e| - 1];
    r
  }

  /** `!s.trim()`: the trimmed string is empty exactly when `s` is blank. */
  function TrimIsEmpty(s: string): (r: bool)
    ensures r <==> IsBlank(s)
  {
    Trim(s) == []
  }

  /** `s.startsWith(p)`: `p` occurs at position 0, so `s` is `p` followed by the rest of `s`. */
  predicate StartsWith(s: string, p: string)
    ensures StartsWith(s, p) <==> OccursAt(s, p, 0)
    ensures StartsWith(s, p) <==> |p| <= |s| && s == p + s[|p|..]
    ensures StartsWith(s, p) ==> Contains(s, p)
  {
    |p| <= |s| && s[..|p|] == p
  }

  /** `t` occurs in `s` starting at position `i`. */
  predicate OccursAt(s: string, t: string, i: int) {
    0 <= i <= |s| - |t| && s[i..i + |t|] == t
  }

  /** `s.includes(t)`: true exactly when `t` occurs somewhere in `s`; the empty string occurs everywhere. */
  function Contains(s: string, t: string): (r: bool)
    ensures r <==> exists i :: OccursAt(s, t, i)
    decreases |s|
  {
    if |t| > |s| then false
    else if s[..|t|] == t then (assert OccursAt(s, t, 0); true)
    else ContainsShift(s, t); Contains(s[1..], t)
  }

  /** `t` occurs in `s` after its first position exactly when it occurs in `s[1..]`. */
  lemma ContainsShift(s: string, t: string)
    requires s != []
    ensures (exists i :: OccursAt(s[1..], t, i)) <==> (exists i :: OccursAt(s, t, i) && i > 0)
  {
    forall i | OccursAt(s[1..], t, i) ensures OccursAt(s, t, i + 1) {
      assert s[1..][i..i + |t|] == s[i + 1..i + 1 + |t|];
    }
    forall i | OccursAt(s, t, i) && i > 0 ensures OccursAt(s[1..], t, i - 1) {
      assert s[1..][i - 1..i - 1 + |t|] == s[i..i + |t|];
    }
  }

  /** The empty string is a substring of every string. */
  lemma ContainsEmpty(s: string)
    ensures Contains(s, "")
  {
    assert OccursAt(s, "", 0);
  }

  /**
   * The tokens of `split(/\s+/)`, where `acc` is the part of the current token
   * already read: a whitespace run ends the current token and starts a new one.
   */
  function SplitFrom(s: string, acc: string): (r: seq<string>)
    ensures |r| >= 1
    decreases |s|
  {
    if s == [] then [acc]
    else if IsSpace(s[0]) then [acc] + SplitFrom(TrimStart(s[1..]), "")
    else SplitFrom(s[1..], acc + [s[0]])
  }

  /** `s.split(/\s+/)`: `""` gives `[""]`, and leading or trailing whitespace gives an empty first or last token. */
  function SplitWhitespace(s: string): (r: seq<string>)
    ensures |r| >= 1
  {
    SplitFrom(s, "")
  }

  /**
   * `s` with every maximal whitespace run replaced by one space: the reference
   * for what the tokens of a split are once joined back by spaces.
   */
  function Collapse(s: string): (r: string)
    ensures |r| <= |s|
    decreases |s|
  {
    if s == [] then []
    else if IsSpace(s[0]) then " " + Collapse(TrimStart(s[1..]))
    else [s[0]] + Collapse(s[1..])
  }

  /** A whitespace run ends the current token: the split and the collapse both put one space there. */
  lemma SplitFromCollapseSpace(s: string, acc: string)
    requires s != [] && IsSpace(s[0])
    requires Join(SplitFrom(TrimStart(s[1..]), ""), " ") == Collapse(TrimStart(s[1..]))
    ensures Join(SplitFrom(s, acc), " ") == acc + Collapse(s)
  {
    var t := TrimStart(s[1..]);
    var rest := SplitFrom(t, "");
    assert SplitFrom(s, acc) == [acc] + rest;
    assert Collapse(s) == " " + Collapse(t);
    JoinConsSingle(acc, rest, " ");
  }

  /** A non-space character extends the current token and is kept by the collapse. */
  lemma SplitFromCollapseWord(s: string, acc: string)
    requires s != [] && !IsSpace(s[0])
    requires Join(SplitFrom(s[1..], acc + [s[0]]), " ") == acc + [s[0]] + Collapse(s[1..])
    ensures Join(SplitFrom(s, acc), " ") == acc + Collapse(s)
  {
    assert SplitFrom(s, acc) == SplitFrom(s[1..], acc + [s[0]]);
    assert Collapse(s) == [s[0]] + Collapse(s[1..]);
  }

  lemma {:induction false} SplitFromCollapse(s: string, acc: string)
    ensures Join(SplitFrom(s, acc), " ") == acc + Collapse(s)
    decreases |s|
  {
    if s == [] {
      assert SplitFrom(s, acc) == [acc];
      assert acc + Collapse(s) == acc;
    } else if IsSpace(s[0]) {
      SplitFromCollapse(TrimStart(s[1..]), "");
      assert "" + Collapse(TrimStart(s[1..])) == Collapse(TrimStart(s[1..]));
      SplitFromCollapseSpace(s, acc);
    } else {
      SplitFromCollapse(s[1..], acc + [s[0]]);
      SplitFromCollapseWord(s, acc);
    }
  }

  /**
   * The tokens of a split, joined back by single spaces, give the input with
   * each whitespace run collapsed into one space.
   */
  lemma SplitWhitespaceCollapse(s: string)
    ensures Join(SplitWhitespace(s), " ") == Collapse(s)
  {
    SplitFromCollapse(s, "");
    assert "" + Collapse(s) == Collapse(s);
  }

  /** Whitespace-free parts joined by spaces hold whitespace exactly when there are at least two parts. */
  lemma JoinSpaced(ts: seq<string>)
    requires |ts| >= 1 && AllNoSpace(ts)
    ensures NoSpace(Join(ts, " ")) <==> |ts| == 1
  {
    if |ts| >= 2 {
      JoinCons(ts, " ");
      assert Join(ts, " ")[|ts[0]|] == ' ';
    }
  }

  /** With at least two whitespace-free parts, the first space of the join ends the first part. */
  lemma JoinFirstPart(ts: seq<string>)
    requires |ts| >= 2 && AllNoSpace(ts)
    ensures |ts[0]| < |Join(ts, " ")| && IsSpace(Join(ts, " ")[|ts[0]|])
    ensures forall i :: 0 <= i < |ts[0]| ==> !IsSpace(Join(ts, " ")[i])
    ensures Join(ts, " ")[..|ts[0]|] == ts[0]
    ensures Join(ts, " ")[|ts[0]| + 1..] == Join(ts[1..], " ")
  {
    JoinCons(ts, " ");
    var a := Join(ts, " ");
    assert forall i :: 0 <= i < |ts[0]| ==> a[i] == ts[0][i];
  }

  /** Two positions that are both the first whitespace of `a` are the same. */
  lemma UniqueFirstSpace(a: string, n: int, m: int)
    requires 0 <= n < |a| && 0 <= m < |a| && IsSpace(a[n]) && IsSpace(a[m])
    requires forall i :: 0 <= i < n ==> !IsSpace(a[i])
    requires forall i :: 0 <= i < m ==> !IsSpace(a[i])
    ensures n == m
  {
  }

  lemma AllNoSpaceTail(ts: seq<string>)
    requires |ts| >= 1 && AllNoSpace(ts)
    ensures AllNoSpace(ts[1..])
  {
    assert forall k :: 0 <= k < |ts| - 1 ==> ts[1..][k] == ts[k + 1];
  }

  /** Joining whitespace-free parts by spaces loses nothing: the join determines the parts. */
  lemma {:induction false} JoinSpaceInjective(ts: seq<string>, us: seq<string>)
    requires |ts| >= 1 && |us| >= 1 && AllNoSpace(ts) && AllNoSpace(us)
    requires Join(ts, " ") == Join(us, " ")
    ensures ts == us
    decreases |ts|
  {
    JoinSpaced(ts);
    JoinSpaced(us);
    if |ts| == 1 {
      assert ts == [ts[0]] && us == [us[0]];
    } else {
      JoinFirstPart(ts);
      JoinFirstPart(us);
      UniqueFirstSpace(Join(ts, " "), |ts[0]|, |us[0]|);
      AllNoSpaceTail(ts);
      AllNoSpaceTail(us);
      JoinSpaceInjective(ts[1..], us[1..]);
      assert ts == [ts[0]] + ts[1..] && us == [us[0]] + us[1..];
    }
  }

  /**
   * The tokens of `split(/\s+/)` characterised without the scanner: they are
   * the one list of whitespace-free strings that, joined by single spaces,
   * gives `s` with each whitespace run collapsed into one space; so they are
   * the pieces of `s` between its whitespace runs, in order.
   */
  lemma SplitWhitespaceUnique(s: string, ts: seq<string>)
    ensures (|ts| >= 1 && AllNoSpace(ts) && Join(ts, " ") == Collapse(s)) <==> ts == SplitWhitespace(s)
  {
    SplitWhitespaceCollapse(s);
    SplitWhitespaceNoSpace(s);
    if |ts| >= 1 && AllNoSpace(ts) && Join(ts, " ") == Collapse(s) {
      JoinSpaceInjective(ts, SplitWhitespace(s));
    }
  }

  /** No string of `ts` holds whitespace. */
  predicate AllNoSpace(ts: seq<string>) {
    forall k :: 0 <= k < |ts| ==> NoSpace(ts[k])
  }

  lemma AllNoSpaceCons(t: string, ts: seq<string>)
    requires NoSpace(t) && AllNoSpace(ts)
    ensures AllNoSpace([t] + ts)
  {
    assert forall k :: 1 <= k <= |ts| ==> ([t] + ts)[k] == ts[k - 1];
  }

  lemma NoSpaceSnoc(t: string, c: char)
    requires NoSpace(t) && !IsSpace(c)
    ensures NoSpace(t + [c])
  {
    assert forall i :: 0 <= i < |t| ==> (t + [c])[i] == t[i];
  }

  lemma {:induction false} SplitFromNoSpace(s: string, acc: string)
    requires NoSpace(acc)
    ensures AllNoSpace(SplitFrom(s, acc))
    decreases |s|
  {
    if s == [] {
      assert SplitFrom(s, acc) == [acc];
    } else if IsSpace(s[0]) {
      var t := TrimStart(s[1..]);
      SplitFromNoSpace(t, "");
      AllNoSpaceCons(acc, SplitFrom(t, ""));
    } else {
      NoSpaceSnoc(acc, s[0]);
      SplitFromNoSpace(s[1..], acc + [s[0]]);
    }
  }

  /** No token of a split contains whitespace. */
  lemma SplitWhitespaceNoSpace(s: string)
    ensures AllNoSpace(SplitWhitespace(s))
  {
    SplitFromNoSpace(s, "");
  }

  lemma {:induction false} SplitFromEmptyToken(s: string, acc: string)
    ensures "" in SplitFrom(s, acc) <==>
      (acc == [] && (s == [] || IsSpace(s[0]))) || (s != [] && IsSpace(s[|s| - 1]))
    decreases |s|
  {
    if s == [] {
    } else if IsSpace(s[0]) {
      var t := TrimStart(s[1..]);
      SplitFromEmptyToken(t, "");
      assert t == [] || t[|t| - 1] == s[|s| - 1];
      if t == [] && |s| > 1 {
        assert IsSpace(s[1..][|s| - 2]);
      }
    } else {
      SplitFromEmptyToken(s[1..], acc + [s[0]]);
      assert |s| > 1 ==> s[1..][|s| - 2] == s[|s| - 1];
    }
  }

  /** A split yields an empty token exactly when the input is empty or begins or ends with whitespace. */
  lemma SplitWhitespaceEmptyToken(s: string)
    ensures "" in SplitWhitespace(s) <==> s == [] || IsSpace(s[0]) || IsSpace(s[|s| - 1])
  {
    SplitFromEmptyToken(s, "");
  }

  /** Reading a whitespace-free word only extends the current token. */
  lemma {:induction false} SplitFromWord(w: string, rest: string, acc: string)
    requires NoSpace(w)
    ensures SplitFrom(w + rest, acc) == SplitFrom(rest, acc + w)
    decreases |w|
  {
    if w == [] {
      assert w + rest == rest && acc + w == acc;
    } else {
      assert (w + rest)[0] == w[0] && (w + rest)[1..] == w[1..] + rest;
      SplitFromWord(w[1..], rest, acc + [w[0]]);
      assert acc + [w[0]] + w[1..] == acc + w;
    }
  }

  /** The sum of the lengths of `parts`. */
  function TotalLength(parts: seq<string>): nat {
    if parts == [] then 0 else |parts[0]| + TotalLength(parts[1..])
  }

  /** `parts.join(sep)`: the parts in order with `sep` between neighbours. */
  function Join(parts: seq<string>, sep: string): (r: string)
    ensures |parts| == 0 ==> r == []
    ensures |parts| == 1 ==> r == parts[0]
    ensures |parts| > 0 ==> |r| == TotalLength(parts) + (|parts| - 1) * |sep|
  {
    if |parts| == 0 then []
    else if |parts| == 1 then parts[0]
    else parts[0] + sep + Join(parts[1..], sep)
  }

  /** A joined sequence of at least two parts begins with the first part followed by the separator. */
  lemma JoinCons(parts: seq<string>, sep: string)
    requires |parts| >= 2
    ensures Join(parts, sep) == parts[0] + sep + Join(parts[1..], sep)
  {
  }

  /** Putting one part in front of a non-empty list puts it and the separator in front of the join. */
  lemma JoinConsSingle(first: string, rest: seq<string>, sep: string)
    requires |rest| >= 1
    ensures Join([first] + rest, sep) == first + sep + Join(rest, sep)
  {
    assert ([first] + rest)[1..] == rest;
  }

  /** Joining one more part appends the separator and that part. */
  lemma {:induction false} JoinSnoc(parts: seq<string>, last: string, sep: string)
    requires |parts| >= 1
    ensures Join(parts + [last], sep) == Join(parts, sep) + sep + last
    decreases |parts|
  {
    if |parts| == 1 {
      assert parts + [last] == [parts[0], last];
      assert [parts[0], last][1..] == [last];
    } else {
      assert (parts + [last])[0] == parts[0];
      assert (parts + [last])[1..] == parts[1..] + [last];
      JoinSnoc(parts[1..], last, sep);
    }
  }

  /**
   * Round trip: splitting the parts joined by single spaces gives the parts
   * back, provided no part holds whitespace and no inner part is empty (only
   * the first and the last token of a split can be empty).
   */
  lemma {:induction false} SplitJoinRoundTrip(ts: seq<string>)
    requires |ts| >= 1
    requires AllNoSpace(ts)
    requires forall k :: 0 < k < |ts| - 1 ==> ts[k] != []
    ensures SplitWhitespace(Join(ts, " ")) == ts
    decreases |ts|
  {
    if |ts| == 1 {
      SplitFromWord(ts[0], [], "");
      assert ts[0] + [] == ts[0] && [] + ts[0] == ts[0];
    } else {
      var tail := Join(ts[1..], " ");
      SplitJoinRoundTrip(ts[1..]);
      assert tail == [] || !IsSpace(tail[0]) by {
        if |ts| == 2 {
          assert tail == ts[1];
        } else {
          assert tail == ts[1] + " " + Join(ts[2..], " ");
          assert ts[1] != [];
        }
      }
      assert Join(ts, " ") == ts[0] + (" " + tail);
      SplitFromWord(ts[0], " " + tail, "");
      assert [] + ts[0] == ts[0];
      assert (" " + tail)[1..] == tail;
      assert TrimStart(tail) == tail;
    }
  }
}
