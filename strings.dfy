/**
 * The parts of Rust's `str` API that the front end and the server rely on,
 * over `string` (a sequence of Unicode scalar values, like Rust's `chars()`).
 */
module Strings {

  /** Rust's `char::is_whitespace`: the Unicode White_Space property. */
  predicate IsSpace(c: char)
  {
    ('\t' <= c <= '\r') || c == ' ' || c == '\U{0085}' || c == '\U{00A0}' || c == '\U{1680}'
    || ('\U{2000}' <= c <= '\U{200A}') || c == '\U{2028}' || c == '\U{2029}'
    || c == '\U{202F}' || c == '\U{205F}' || c == '\U{3000}'
  }

  /** Every character is whitespace (`s.trim().is_empty()`, see Trim). */
  predicate IsBlank(s: string)
  {
    forall i :: 0 <= i < |s| ==> IsSpace(s[i])
  }

  /** No character is whitespace. */
  predicate NoSpace(s: string)
  {
    forall i :: 0 <= i < |s| ==> !IsSpace(s[i])
  }

  /** Length of the leading run of whitespace. */
  function LeadingSpace(s: string): (k: nat)
    ensures k <= |s|
    ensures forall i :: 0 <= i < k ==> IsSpace(s[i])
    ensures k < |s| ==> !IsSpace(s[k])
  {
    if s != [] && IsSpace(s[0]) then 1 + LeadingSpace(s[1..]) else 0
  }

  /** Where the trailing run of whitespace starts. */
  function TrailingSpace(s: string): (k: nat)
    ensures k <= |s|
    ensures forall i :: k <= i < |s| ==> IsSpace(s[i])
    ensures 0 < k ==> !IsSpace(s[k - 1])
  {
    if s != [] && IsSpace(s[|s| - 1]) then TrailingSpace(s[..|s| - 1]) else |s|
  }

  /** `str::trim_start`: drops the leading whitespace and nothing else. */
  function TrimStart(s: string): (r: string)
    ensures |r| <= |s| && r == s[|s| - |r|..]
    ensures IsBlank(s[..|s| - |r|])
    ensures r == [] || !IsSpace(r[0])
  {
    s[LeadingSpace(s)..]
  }

  /** `str::trim_end`: drops the trailing whitespace and nothing else. */
  function TrimEnd(s: string): (r: string)
    ensures |r| <= |s| && r == s[..|r|]
    ensures IsBlank(s[|r|..])
    ensures r == [] || !IsSpace(r[|r| - 1])
  {
    s[..TrailingSpace(s)]
  }

  /** `p` occurs in `s` at index `i`. */
  predicate OccursAt(s: string, p: string, i: int)
  {
    0 <= i <= |s| - |p| && s[i..i + |p|] == p
  }

  lemma BlankParts(s: string, a: nat, b: nat)
    requires a <= b <= |s|
    requires IsBlank(s[..a]) && IsBlank(s[a..b]) && IsBlank(s[b..])
    ensures IsBlank(s)
  {
    forall i | 0 <= i < |s| ensures IsSpace(s[i]) {
      if i < a { assert s[i] == s[..a][i]; }
      else if i < b { assert s[i] == s[a..b][i - a]; }
      else { assert s[i] == s[b..][i - b]; }
    }
  }

  /** A prefix of a suffix of `s` is an infix of `s`. */
  lemma PrefixOfSuffix(s: string, a: nat, t: string, r: string)
    requires a <= |s| && s[a..] == t && |r| <= |t| && r == t[..|r|]
    ensures OccursAt(s, r, a)
    ensures s[a + |r|..] == t[|r|..]
  {
    assert s[a..a + |r|] == t[..|r|];
  }

  /** Trimming both ends leaves an infix with whitespace on either side. */
  lemma TrimInfix(s: string, t: string, r: string)
    requires t == TrimStart(s) && r == TrimEnd(t)
    ensures OccursAt(s, r, |s| - |t|)
    ensures IsBlank(s[..|s| - |t|]) && IsBlank(s[|s| - |t| + |r|..])
  {
    PrefixOfSuffix(s, |s| - |t|, t, r);
  }

  /** Trimming both ends leaves nothing exactly when the input is blank. */
  lemma TrimEmpty(s: string, t: string, r: string)
    requires t == TrimStart(s) && r == TrimEnd(t)
    ensures r == [] <==> IsBlank(s)
  {
    var a := |s| - |t|;
    assert s[a..] == t;
    if r == [] {
      assert IsBlank(t);
      BlankParts(s, a, a);
    }
    if IsBlank(s) {
      assert t == [];
    }
  }

  /** The ends of the trimmed string are not whitespace. */
  lemma TrimEdges(s: string, t: string, r: string)
    requires t == TrimStart(s) && r == TrimEnd(t)
    ensures r == [] || (!IsSpace(r[0]) && !IsSpace(r[|r| - 1]))
  {
    if r != [] {
      assert r[0] == t[0];
    }
  }

  /** `str::trim`: drops whitespace at both ends; see `TrimIsInfix` for what is kept. */
  function Trim(s: string): (r: string)
    ensures |r| <= |s|
    ensures r == [] <==> IsBlank(s)
    ensures r == [] || (!IsSpace(r[0]) && !IsSpace(r[|r| - 1]))
  {
    var t := TrimStart(s);
    var r := TrimEnd(t);
    TrimEmpty(s, t, r);
    TrimEdges(s, t, r);
    r
  }

  /** What `Trim` keeps is an infix of the input with only whitespace on either side of it. */
  lemma TrimIsInfix(s: string)
    ensures var a := |s| - |TrimStart(s)|;
      OccursAt(s, Trim(s), a) && IsBlank(s[..a]) && IsBlank(s[a + |Trim(s)|..])
  {
    TrimInfix(s, TrimStart(s), Trim(s));
  }

  /** Whitespace in front of a string that starts with a non-space is exactly what `TrimStart` drops. */
  lemma {:induction false} TrimStartPadded(pad: string, x: string)
    requires IsBlank(pad) && (x == [] || !IsSpace(x[0]))
    ensures TrimStart(pad + x) == x
    decreases |pad|
  {
    if pad == [] {
      assert pad + x == x;
    } else {
      assert (pad + x)[0] == pad[0];
      assert (pad + x)[1..] == pad[1..] + x;
      TrimStartPadded(pad[1..], x);
    }
  }

  /** Whitespace after a string that ends with a non-space is exactly what `TrimEnd` drops. */
  lemma {:induction false} TrimEndPadded(x: string, pad: string)
    requires IsBlank(pad) && (x == [] || !IsSpace(x[|x| - 1]))
    ensures TrimEnd(x + pad) == x
    decreases |pad|
  {
    if pad == [] {
      assert x + pad == x;
    } else {
      var n := |pad| - 1;
      assert (x + pad)[|x + pad| - 1] == pad[n];
      assert (x + pad)[..|x + pad| - 1] == x + pad[..n];
      TrimEndPadded(x, pad[..n]);
    }
  }

  /** `Trim` of a word between two runs of whitespace is the word. */
  lemma TrimPadded(pre: string, w: string, post: string)
    requires IsBlank(pre) && IsBlank(post) && w != [] && NoSpace(w)
    ensures Trim(pre + w + post) == w
  {
    assert pre + w + post == pre + (w + post);
    assert (w + post)[0] == w[0];
    TrimStartPadded(pre, w + post);
    TrimEndPadded(w, post);
  }

  /** `str::starts_with` for a string pattern. */
  predicate StartsWith(s: string, prefix: string)
  {
    |prefix| <= |s| && s[..|prefix|] == prefix
  }

  /** `str::contains` for a string pattern. */
  predicate Contains(s: string, pattern: string)
  {
    exists i :: 0 <= i <= |s| && OccursAt(s, pattern, i)
  }

  /** A string that starts with a pattern also contains it. */
  lemma StartsWithContains(s: string, p: string)
    requires StartsWith(s, p)
    ensures Contains(s, p)
  {
    assert OccursAt(s, p, 0);
  }

  /**
   * `str::trim_start_matches` for a string pattern: removes the pattern from
   * the front as many times as it occurs there.
   */
  function TrimStartMatches(s: string, pattern: string): (r: string)
    ensures |r| <= |s| && r == s[|s| - |r|..]
    ensures pattern != [] ==> !StartsWith(r, pattern)
    ensures !StartsWith(s, pattern) ==> r == s
    decreases |s|
  {
    if pattern != [] && StartsWith(s, pattern) then TrimStartMatches(s[|pattern|..], pattern) else s
  }

  /** One copy of the pattern in front, not followed by another, is removed once. */
  lemma TrimStartMatchesOnce(pattern: string, rest: string)
    requires pattern != [] && !StartsWith(rest, pattern)
    ensures TrimStartMatches(pattern + rest, pattern) == rest
  {
    var s := pattern + rest;
    assert s[..|pattern|] == pattern;
    assert s[|pattern|..] == rest;
  }

  /** `pattern` written `n` times. */
  function Repeat(pattern: string, n: nat): string
  {
    if n == 0 then [] else pattern + Repeat(pattern, n - 1)
  }

  /** A copy of the pattern in front is removed, whatever follows it. */
  lemma TrimStartMatchesPeel(pattern: string, rest: string)
    requires pattern != []
    ensures TrimStartMatches(pattern + rest, pattern) == TrimStartMatches(rest, pattern)
  {
    var s := pattern + rest;
    assert s[..|pattern|] == pattern;
    assert s[|pattern|..] == rest;
  }

  /** One more copy in front of a string that is `n` copies and then `r`. */
  lemma CopiesOnceMore(s: string, pattern: string, n: nat, r: string)
    requires StartsWith(s, pattern) && s[|pattern|..] == Repeat(pattern, n) + r
    ensures s == Repeat(pattern, n + 1) + r
  {
    assert s == pattern + s[|pattern|..];
  }

  /** What `TrimStartMatches` removes is some number of copies of the pattern, and nothing else. */
  lemma {:induction false} TrimStartMatchesRemovesCopies(s: string, pattern: string)
    ensures exists n: nat :: s == Repeat(pattern, n) + TrimStartMatches(s, pattern)
    decreases |s|
  {
    if pattern != [] && StartsWith(s, pattern) {
      var tail := s[|pattern|..];
      TrimStartMatchesRemovesCopies(tail, pattern);
      var n: nat :| tail == Repeat(pattern, n) + TrimStartMatches(tail, pattern);
      CopiesOnceMore(s, pattern, n, TrimStartMatches(tail, pattern));
      assert s == Repeat(pattern, n + 1) + TrimStartMatches(s, pattern);
    } else {
      assert s == Repeat(pattern, 0) + TrimStartMatches(s, pattern);
    }
  }

  /** Index of the first occurrence of `c`, or `|s|` when there is none. */
  function IndexOf(s: string, c: char): (k: nat)
    ensures k <= |s|
    ensures k < |s| ==> s[k] == c
    ensures forall i :: 0 <= i < k ==> s[i] != c
  {
    if s == [] then 0 else if s[0] == c then 0 else 1 + IndexOf(s[1..], c)
  }

  /** Drops one trailing carriage return. */
  function StripCr(line: string): (r: string)
    ensures r == line || (line == r + ['\r'])
  {
    if line != [] && line[|line| - 1] == '\r' then line[..|line| - 1] else line
  }

  /**
   * `str::lines`: the pieces between line feeds; a piece ended by a line feed
   * also loses one carriage return before it, and a final line feed does not
   * start an empty last line.
   */
  function Lines(s: string): (ls: seq<string>)
    ensures forall i :: 0 <= i < |ls| ==> '\n' !in ls[i]
    ensures s == [] <==> ls == []
    decreases |s|
  {
    if s == [] then []
    else
      var k := IndexOf(s, '\n');
      if k == |s| then [s]
      else
        assert '\n' !in s[..k];
        [StripCr(s[..k])] + Lines(s[k + 1..])
  }

  /** A line ended by a line feed is the first line, without its carriage return; the lines after it follow. */
  lemma LinesAfterLine(a: string, rest: string)
    requires '\n' !in a
    ensures Lines(a + "\n" + rest) == [StripCr(a)] + Lines(rest)
  {
    var s := a + "\n" + rest;
    assert forall i :: 0 <= i < |a| ==> s[i] == a[i];
    assert s[|a|] == '\n';
    assert IndexOf(s, '\n') == |a|;
    assert s[..|a|] == a;
    assert s[|a| + 1..] == rest;
  }

  /** A last line with no line feed after it is kept whole, carriage return included. */
  lemma LinesLast(a: string)
    requires a != [] && '\n' !in a
    ensures Lines(a) == [a]
  {
  }

  /** Lines joined back with line feeds between them. */
  function JoinLines(ls: seq<string>): string
  {
    if ls == [] then [] else if |ls| == 1 then ls[0] else ls[0] + "\n" + JoinLines(ls[1..])
  }

  lemma JoinLinesCons(a: string, ls: seq<string>)
    requires ls != []
    ensures JoinLines([a] + ls) == a + "\n" + JoinLines(ls)
  {
    assert ([a] + ls)[1..] == ls;
  }

  /** Text that has no carriage return has none in its pieces around index `k`. */
  lemma NoCrPieces(s: string, k: nat)
    requires '\r' !in s && k < |s|
    ensures '\r' !in s[..k] && '\r' !in s[k + 1..]
  {
    assert forall c :: c in s[..k] ==> c in s;
    assert forall c :: c in s[k + 1..] ==> c in s;
  }

  /** A line without a carriage return keeps all of its text. */
  lemma StripCrNoCr(a: string)
    requires '\r' !in a
    ensures StripCr(a) == a
  {
    if a != [] {
      assert a[|a| - 1] in a;
    }
  }

  /** One line without carriage returns, a line feed, and more text: joining restores the line feed. */
  lemma LinesJoinStep(a: string, rest: string)
    requires '\n' !in a && '\r' !in a && rest != []
    ensures JoinLines(Lines(a + "\n" + rest)) == a + "\n" + JoinLines(Lines(rest))
  {
    LinesAfterLine(a, rest);
    StripCrNoCr(a);
    JoinLinesCons(a, Lines(rest));
  }

  /** A line ended by the last line feed of the text: joining gives back the line. */
  lemma LinesJoinFinalFeed(a: string)
    requires '\n' !in a && '\r' !in a
    ensures JoinLines(Lines(a + "\n")) == a
  {
    LinesAfterLine(a, []);
    StripCrNoCr(a);
    assert a + "\n" + [] == a + "\n";
  }

  /** The text less one final line feed, if it has one. */
  function DropFinalFeed(s: string): string
  {
    if s != [] && s[|s| - 1] == '\n' then s[..|s| - 1] else s
  }

  lemma DropFinalFeedAfterLine(a: string, rest: string)
    requires rest != []
    ensures DropFinalFeed(a + "\n" + rest) == a + "\n" + DropFinalFeed(rest)
  {
    var s := a + "\n" + rest;
    assert s[|s| - 1] == rest[|rest| - 1];
    assert s[..|s| - 1] == a + "\n" + rest[..|rest| - 1];
  }

  /**
   * Without carriage returns, joining the lines with line feeds gives back
   * the text, less one final line feed.
   */
  lemma {:induction false} LinesJoin(s: string)
    requires '\r' !in s
    ensures JoinLines(Lines(s)) == DropFinalFeed(s)
    decreases |s|
  {
    if s != [] {
      var k := IndexOf(s, '\n');
      if k == |s| {
        LinesLast(s);
      } else {
        var a, rest := s[..k], s[k + 1..];
        assert s == a + "\n" + rest;
        NoCrPieces(s, k);
        if rest == [] {
          LinesJoinFinalFeed(a);
          assert s[..|s| - 1] == a;
        } else {
          LinesJoinStep(a, rest);
          LinesJoin(rest);
          DropFinalFeedAfterLine(a, rest);
        }
      }
    }
  }

  /** Length of the leading run of non-whitespace characters. */
  function WordEnd(s: string): (k: nat)
    ensures k <= |s|
    ensures NoSpace(s[..k])
    ensures k < |s| ==> IsSpace(s[k])
    ensures s != [] && !IsSpace(s[0]) ==> k > 0
  {
    if s == [] || IsSpace(s[0]) then 0
    else
      var k := 1 + WordEnd(s[1..]);
      assert s[..k] == [s[0]] + s[1..][..k - 1];
      k
  }

  lemma WordsCons(w: string, ws: seq<string>)
    requires w != [] && NoSpace(w)
    requires forall i :: 0 <= i < |ws| ==> ws[i] != [] && NoSpace(ws[i])
    ensures forall i :: 0 <= i < |[w] + ws| ==> ([w] + ws)[i] != [] && NoSpace(([w] + ws)[i])
  {
  }

  /** `str::split_whitespace`: the maximal non-empty runs of non-whitespace. */
  function SplitWhitespace(s: string): (ws: seq<string>)
    ensures forall i :: 0 <= i < |ws| ==> ws[i] != [] && NoSpace(ws[i])
    decreases |s|
  {
    var t := TrimStart(s);
    if t == [] then []
    else
      var k := WordEnd(t);
      var rest := SplitWhitespace(t[k..]);
      WordsCons(t[..k], rest);
      [t[..k]] + rest
  }

  /** Blank text holds no words. */
  lemma SplitWhitespaceBlank(b: string)
    requires IsBlank(b)
    ensures SplitWhitespace(b) == []
  {
    if TrimStart(b) != [] {
      assert TrimStart(b)[0] == b[|b| - |TrimStart(b)|];
    }
  }

  /** The word a run of non-whitespace makes ends exactly where the run ends. */
  lemma WordEndPadded(w: string, c: string)
    requires w != [] && NoSpace(w) && (c == [] || IsSpace(c[0]))
    ensures WordEnd(w + c) == |w|
  {
    var t := w + c;
    assert forall i :: 0 <= i < |w| ==> t[i] == w[i];
    assert c != [] ==> t[|w|] == c[0];
  }

  /**
   * Whitespace, then a run of non-whitespace, then text that is empty or
   * starts with whitespace: the run is the first word, and the words of the
   * rest follow.
   */
  lemma SplitWhitespaceWord(b: string, w: string, c: string)
    requires IsBlank(b) && w != [] && NoSpace(w) && (c == [] || IsSpace(c[0]))
    ensures SplitWhitespace(b + w + c) == [w] + SplitWhitespace(c)
  {
    var t := w + c;
    assert b + w + c == b + t;
    assert t[0] == w[0];
    TrimStartPadded(b, t);
    WordEndPadded(w, c);
    assert t[..|w|] == w && t[|w|..] == c;
  }

  /** The characters of `s` that are not whitespace, in order. */
  function NonSpace(s: string): (r: string)
  {
    if s == [] then [] else (if IsSpace(s[0]) then [] else [s[0]]) + NonSpace(s[1..])
  }

  /** The concatenation of a sequence of strings. */
  function Concat(ws: seq<string>): string
  {
    if ws == [] then [] else ws[0] + Concat(ws[1..])
  }

  lemma {:induction false} NonSpaceAppend(a: string, b: string)
    ensures NonSpace(a + b) == NonSpace(a) + NonSpace(b)
    decreases |a|
  {
    if a != [] {
      assert (a + b)[1..] == a[1..] + b;
      NonSpaceAppend(a[1..], b);
    } else {
      assert a + b == b;
    }
  }

  lemma {:induction false} NonSpaceBlank(s: string)
    requires IsBlank(s)
    ensures NonSpace(s) == []
    decreases |s|
  {
    if s != [] {
      NonSpaceBlank(s[1..]);
    }
  }

  lemma {:induction false} NonSpaceWord(s: string)
    requires NoSpace(s)
    ensures NonSpace(s) == s
    decreases |s|
  {
    if s != [] {
      NonSpaceWord(s[1..]);
    }
  }

  /** Leading whitespace contributes nothing to the non-whitespace characters. */
  lemma NonSpaceTrimStart(s: string)
    ensures NonSpace(TrimStart(s)) == NonSpace(s)
  {
    var t := TrimStart(s);
    var lead := s[..|s| - |t|];
    assert s == lead + t;
    NonSpaceAppend(lead, t);
    NonSpaceBlank(lead);
  }

  /** A leading word contributes itself. */
  lemma NonSpaceFirstWord(t: string)
    ensures NonSpace(t) == t[..WordEnd(t)] + NonSpace(t[WordEnd(t)..])
  {
    var k := WordEnd(t);
    assert t == t[..k] + t[k..];
    NonSpaceAppend(t[..k], t[k..]);
    NonSpaceWord(t[..k]);
  }

  lemma ConcatCons(w: string, ws: seq<string>)
    ensures Concat([w] + ws) == w + Concat(ws)
  {
    assert ([w] + ws)[1..] == ws;
  }

  /**
   * Splitting on whitespace loses exactly the whitespace: the words, joined
   * back together, are the non-whitespace characters of the input in order.
   */
  lemma {:induction false} SplitWhitespaceKeepsText(s: string)
    ensures Concat(SplitWhitespace(s)) == NonSpace(s)
    decreases |s|
  {
    var t := TrimStart(s);
    NonSpaceTrimStart(s);
    if t != [] {
      var k := WordEnd(t);
      assert SplitWhitespace(s) == [t[..k]] + SplitWhitespace(t[k..]);
      ConcatCons(t[..k], SplitWhitespace(t[k..]));
      NonSpaceFirstWord(t);
      SplitWhitespaceKeepsText(t[k..]);
    } else {
      assert NonSpace(t) == [];
    }
  }

  /** The first `n` characters (`s.chars().take(n).collect::<String>()`). */
  function Take(s: string, n: nat): (r: string)
    ensures |r| == if |s| <= n then |s| else n
    ensures r == s[..|r|]
  {
    if |s| <= n then s else s[..n]
  }
}
