/** The parts of Rust's `str` that NVRC's parsers rest on: trimming, splitting and line iteration.
    A string is a sequence of Unicode scalar values. */
module Text {

  datatype Option<+T> = None | Some(value: T)

  datatype Result<+T, +E> = Ok(value: T) | Err(error: E)

  // ---------- Whitespace ----------

  /** `char::is_whitespace`: the White_Space property of Unicode. */
  predicate IsWhitespace(c: char) {
    var n := c as int;
    || 9 <= n <= 13 || n == 32 || n == 0x85 || n == 0xA0 || n == 0x1680
    || 0x2000 <= n <= 0x200A || n == 0x2028 || n == 0x2029 || n == 0x202F || n == 0x205F || n == 0x3000
  }

  predicate NoWhitespace(s: string) {
    forall c <- s :: !IsWhitespace(c)
  }

  function TrimStart(s: string): (r: string)
    ensures |r| <= |s|
  {
    if s != "" && IsWhitespace(s[0]) then TrimStart(s[1..]) else s
  }

  function TrimEnd(s: string): (r: string)
    ensures |r| <= |s|
  {
    if s != "" && IsWhitespace(s[|s| - 1]) then TrimEnd(s[..|s| - 1]) else s
  }

  lemma {:induction false} TrimStartIs(s: string)
    ensures TrimStart(s) == s[|s| - |TrimStart(s)|..]
    ensures TrimStart(s) == "" || !IsWhitespace(TrimStart(s)[0])
  {
    if s != "" && IsWhitespace(s[0]) {
      TrimStartIs(s[1..]);
    }
  }

  lemma {:induction false} TrimEndIs(s: string)
    ensures TrimEnd(s) <= s
    ensures TrimEnd(s) == "" || !IsWhitespace(TrimEnd(s)[|TrimEnd(s)| - 1])
  {
    if s != "" && IsWhitespace(s[|s| - 1]) {
      TrimEndIs(s[..|s| - 1]);
    }
  }

  function Trim(s: string): string {
    TrimEnd(TrimStart(s))
  }

  lemma TrimEndKeeps(a: string, b: string)
    requires a != "" && !IsWhitespace(a[|a| - 1])
    ensures TrimEnd(a + b) == a + TrimEnd(b)
    decreases |b|
  {
    if b == "" {
      assert a + b == a;
    } else if IsWhitespace(b[|b| - 1]) {
      assert (a + b)[..|a + b| - 1] == a + b[..|b| - 1];
      TrimEndKeeps(a, b[..|b| - 1]);
    }
  }

  predicate Blank(s: string) {
    forall c <- s :: IsWhitespace(c)
  }

  lemma {:induction false} TrimStartOf(blanks: string, s: string)
    requires Blank(blanks) && (s == "" || !IsWhitespace(s[0]))
    ensures TrimStart(blanks + s) == s
  {
    if blanks == "" {
      assert blanks + s == s;
    } else {
      assert (blanks + s)[1..] == blanks[1..] + s;
      TrimStartOf(blanks[1..], s);
    }
  }

  lemma {:induction false} TrimEndOf(s: string, blanks: string)
    requires Blank(blanks) && (s == "" || !IsWhitespace(s[|s| - 1]))
    ensures TrimEnd(s + blanks) == s
    decreases |blanks|
  {
    if blanks == "" {
      assert s + blanks == s;
    } else {
      var n := |blanks| - 1;
      assert (s + blanks)[..|s + blanks| - 1] == s + blanks[..n] && (s + blanks)[|s + blanks| - 1] == blanks[n];
      TrimEndOf(s, blanks[..n]);
    }
  }

  /** Trimming removes the blanks around a text, and those only. */
  lemma TrimOf(before: string, s: string, after: string)
    requires Blank(before) && Blank(after)
    requires s != "" && !IsWhitespace(s[0]) && !IsWhitespace(s[|s| - 1])
    ensures Trim(before + s + after) == s
  {
    assert before + s + after == before + (s + after);
    TrimStartOf(before, s + after);
    TrimEndOf(s, after);
  }

  // ---------- Searching ----------

  /** The position of the first `c`, or |s|. */
  function Find(s: string, c: char): (n: nat)
    ensures n <= |s|
  {
    if s == "" || s[0] == c then 0 else 1 + Find(s[1..], c)
  }

  lemma {:induction false} FindIsFirst(s: string, c: char)
    ensures c !in s[..Find(s, c)]
    ensures Find(s, c) < |s| ==> s[Find(s, c)] == c
    ensures Find(s, c) == |s| <==> c !in s
  {
    if s != "" && s[0] != c {
      FindIsFirst(s[1..], c);
      var n := Find(s, c);
      assert s[..n] == [s[0]] + s[1..][..n - 1];
      assert s == [s[0]] + s[1..];
    }
  }

  lemma {:induction false} FindFirst(a: string, c: char, b: string)
    requires c !in a
    ensures Find(a + [c] + b, c) == |a|
  {
    if a != "" {
      assert (a + [c] + b)[1..] == a[1..] + [c] + b;
      FindFirst(a[1..], c, b);
    }
  }

  /** `str::split_once`. */
  function SplitOnce(s: string, c: char): (r: Option<(string, string)>)
    ensures r.Some? ==> s == r.value.0 + [c] + r.value.1 && c !in r.value.0
    ensures r.None? <==> c !in s
  {
    FindIsFirst(s, c);
    var n := Find(s, c);
    assert n < |s| ==> s == s[..n] + [c] + s[n + 1..] && s[n] in s;
    if n < |s| then Some((s[..n], s[n + 1..])) else None
  }

  lemma SplitOnceOf(a: string, c: char, b: string)
    requires c !in a
    ensures SplitOnce(a + [c] + b, c) == Some((a, b))
  {
    FindFirst(a, c, b);
    var s := a + [c] + b;
    assert s[..|a|] == a && s[|a| + 1..] == b;
  }

  /** `str::contains` for a string pattern. */
  predicate Contains(s: string, m: string) {
    m <= s || (s != "" && Contains(s[1..], m))
  }

  lemma {:induction false} ContainsWhere(s: string, m: string) returns (i: nat)
    requires Contains(s, m)
    ensures i + |m| <= |s| && s[i..i + |m|] == m
  {
    if m <= s {
      i := 0;
    } else {
      i := ContainsWhere(s[1..], m);
      assert s[i + 1..i + 1 + |m|] == s[1..][i..i + |m|];
      i := i + 1;
    }
  }

  lemma {:induction false} ContainsAt(s: string, m: string, i: nat)
    requires i + |m| <= |s| && s[i..i + |m|] == m
    ensures Contains(s, m)
  {
    if i == 0 {
      assert m <= s;
    } else {
      assert s[1..][i - 1..i - 1 + |m|] == m;
      ContainsAt(s[1..], m, i - 1);
    }
  }

  lemma ContainsInPart(a: string, b: string, c: string, m: string)
    requires Contains(b, m)
    ensures Contains(a + b + c, m)
  {
    var i := ContainsWhere(b, m);
    assert (a + b + c)[|a| + i..|a| + i + |m|] == b[i..i + |m|];
    ContainsAt(a + b + c, m, |a| + i);
  }

  // ---------- Splitting at a separator ----------

  /** `str::split` at one character. */
  function Split(s: string, c: char): (parts: seq<string>)
    ensures parts != []
    ensures forall p <- parts :: c !in p
    decreases |s|
  {
    FindIsFirst(s, c);
    var n := Find(s, c);
    if n < |s| then [s[..n]] + Split(s[n + 1..], c) else [s]
  }

  function Join(parts: seq<string>, c: char): string {
    if parts == [] then "" else if |parts| == 1 then parts[0] else parts[0] + [c] + Join(parts[1..], c)
  }

  lemma {:induction false} SplitOfJoin(parts: seq<string>, c: char)
    requires parts != [] && forall p <- parts :: c !in p
    ensures Split(Join(parts, c), c) == parts
  {
    if |parts| == 1 {
      assert c !in parts[0];
      FindIsFirst(parts[0], c);
    } else {
      var rest := Join(parts[1..], c);
      FindFirst(parts[0], c, rest);
      var s := parts[0] + [c] + rest;
      assert s[..|parts[0]|] == parts[0] && s[|parts[0]| + 1..] == rest;
      SplitOfJoin(parts[1..], c);
    }
  }

  // ---------- Splitting at white space ----------

  function WordLength(s: string): (n: nat)
    ensures n <= |s|
    ensures s != "" && !IsWhitespace(s[0]) ==> n > 0
  {
    if s == "" || IsWhitespace(s[0]) then 0 else 1 + WordLength(s[1..])
  }

  /** `str::split_whitespace`. */
  function SplitWhitespace(s: string): seq<string>
    decreases |s|
  {
    if s == "" then []
    else if IsWhitespace(s[0]) then SplitWhitespace(s[1..])
    else
      var n := WordLength(s);
      [s[..n]] + SplitWhitespace(s[n..])
  }

  lemma {:induction false} WordLengthOf(w: string, s: string)
    requires NoWhitespace(w) && (s == "" || IsWhitespace(s[0]))
    ensures WordLength(w + s) == |w|
  {
    if w != "" {
      assert (w + s)[1..] == w[1..] + s;
      WordLengthOf(w[1..], s);
    }
  }

  /** The first word ends where white space begins. */
  lemma FirstWord(a: string, tail: string)
    requires a != "" && !IsWhitespace(a[0]) && tail != "" && IsWhitespace(tail[0])
    ensures var n := WordLength(a);
            SplitWhitespace(a + tail) == [a[..n]] + SplitWhitespace(a[n..] + tail)
  {
    WordLengthKept(a, tail);
    SliceAppend(a, tail, WordLength(a));
    assert (a + tail)[0] == a[0];
  }

  lemma {:induction false} WordLengthKept(a: string, tail: string)
    requires tail != "" && IsWhitespace(tail[0])
    ensures WordLength(a + tail) == WordLength(a)
  {
    if a == "" {
      assert a + tail == tail;
    } else {
      assert (a + tail)[0] == a[0] && (a + tail)[1..] == a[1..] + tail;
      WordLengthKept(a[1..], tail);
    }
  }

  /** White space between two texts separates their words. */
  lemma {:induction false} SplitWhitespaceAppend(a: string, c: char, b: string)
    requires IsWhitespace(c)
    ensures SplitWhitespace(a + [c] + b) == SplitWhitespace(a) + SplitWhitespace(b)
    decreases |a|
  {
    var tail := [c] + b;
    assert a + [c] + b == a + tail;
    if a == "" {
      assert a + tail == tail && tail[1..] == b;
    } else if IsWhitespace(a[0]) {
      assert (a + tail)[1..] == a[1..] + tail;
      assert a[1..] + [c] + b == a[1..] + tail;
      SplitWhitespaceAppend(a[1..], c, b);
    } else {
      var n := WordLength(a);
      FirstWord(a, tail);
      SplitWhitespaceAppend(a[n..], c, b);
      assert a[n..] + [c] + b == a[n..] + tail;
      Associative([a[..n]], SplitWhitespace(a[n..]), SplitWhitespace(b));
    }
  }

  /** Joining words with blanks loses nothing. */
  lemma {:induction false} SplitWhitespaceOfJoin(words: seq<string>)
    requires forall w <- words :: w != "" && NoWhitespace(w)
    ensures SplitWhitespace(Join(words, ' ')) == words
  {
    if words != [] {
      var w := words[0];
      WordLengthOf(w, "");
      assert w + "" == w && w[..|w|] == w;
      assert SplitWhitespace(w) == [w];
      if |words| > 1 {
        assert forall v <- words[1..] :: v in words;
        SplitWhitespaceAppend(w, ' ', Join(words[1..], ' '));
        SplitWhitespaceOfJoin(words[1..]);
      }
    }
  }

  // ---------- Key and value ----------

  /** The texts with an `=` in them, split at the first one. */
  function Pairs(texts: seq<string>): (pairs: seq<(string, string)>)
    ensures |pairs| <= |texts|
  {
    if texts == [] then [] else
      match SplitOnce(texts[0], '=')
      case Some(t) => [t] + Pairs(texts[1..])
      case None => Pairs(texts[1..])
  }

  lemma {:induction false} PairsAppend(a: seq<string>, b: seq<string>)
    ensures Pairs(a + b) == Pairs(a) + Pairs(b)
  {
    if a == [] {
      assert a + b == b;
    } else {
      assert (a + b)[1..] == a[1..] + b;
      PairsAppend(a[1..], b);
      var pair := SplitOnce(a[0], '=');
      if pair.Some? {
        Associative([pair.value], Pairs(a[1..]), Pairs(b));
      }
    }
  }

  /** A key without `=` and its value are read back as that pair. */
  lemma OnePair(key: string, value: string)
    requires '=' !in key
    ensures Pairs([key + "=" + value]) == [(key, value)]
  {
    SplitOnceOf(key, '=', value);
    assert key + "=" + value == key + ['='] + value;
  }

  /** The value of the last pair with a key. */
  function LastOf(pairs: seq<(string, string)>, key: string): Option<string> {
    if pairs == [] then None
    else
      var p := pairs[|pairs| - 1];
      if p.0 == key then Some(p.1) else LastOf(pairs[..|pairs| - 1], key)
  }

  lemma LastOfMore(pairs: seq<(string, string)>, p: (string, string), key: string)
    ensures LastOf(pairs + [p], key) == if p.0 == key then Some(p.1) else LastOf(pairs, key)
  {
    var more := pairs + [p];
    assert more[..|more| - 1] == pairs && more[|more| - 1] == p;
  }

  lemma {:induction false} LastOccurs(pairs: seq<(string, string)>, key: string)
    requires LastOf(pairs, key).Some?
    ensures (key, LastOf(pairs, key).value) in pairs
    decreases |pairs|
  {
    var p := pairs[|pairs| - 1];
    if p.0 != key {
      LastOccurs(pairs[..|pairs| - 1], key);
    } else {
      assert p == (key, LastOf(pairs, key).value);
    }
  }

  lemma {:induction false} LastOfIs(pairs: seq<(string, string)>, key: string)
    ensures LastOf(pairs, key) == None <==> forall p <- pairs :: p.0 != key
    ensures LastOf(pairs, key).Some? ==>
              exists i :: 0 <= i < |pairs| && pairs[i] == (key, LastOf(pairs, key).value)
                          && forall j :: i < j < |pairs| ==> pairs[j].0 != key
    decreases |pairs|
  {
    if pairs != [] {
      var n := |pairs| - 1;
      LastOfIs(pairs[..n], key);
      assert forall p :: p in pairs <==> p == pairs[n] || p in pairs[..n];
      if pairs[n].0 != key && LastOf(pairs, key).Some? {
        var i :| 0 <= i < n && pairs[i] == (key, LastOf(pairs, key).value)
                 && forall j :: i < j < n ==> pairs[..n][j].0 != key;
        assert forall j :: i < j < n ==> pairs[j] == pairs[..n][j];
      } else if pairs[n].0 == key {
        assert pairs[n] == (key, LastOf(pairs, key).value);
      }
    }
  }

  // ---------- Lines ----------

  /** The length of the first line of a text, its newline included. */
  function LineLength(s: string): (n: nat)
    ensures n <= |s| && (s != "" ==> n > 0)
  {
    var n := Find(s, '\n');
    if n < |s| then n + 1 else n
  }

  /** `str::split_inclusive('\n')`; also the lines that successive `read_line` calls return. */
  function Lines(s: string): seq<string>
    decreases |s|
  {
    if s == "" then [] else
      var n := LineLength(s);
      [s[..n]] + Lines(s[n..])
  }

  /** How many characters come after the last newline. */
  function OpenEnd(s: string): nat
    decreases |s|
  {
    var n := Find(s, '\n');
    if n == |s| then n else OpenEnd(s[n + 1..])
  }

  /** Every line is closed by its newline. */
  predicate Terminated(s: string) {
    OpenEnd(s) == 0
  }

  lemma {:induction false} TerminatedIs(s: string)
    ensures Terminated(s) <==> s == "" || s[|s| - 1] == '\n'
    decreases |s|
  {
    FindIsFirst(s, '\n');
    var n := Find(s, '\n');
    if n < |s| {
      TerminatedIs(s[n + 1..]);
    } else if s != "" {
      assert s[|s| - 1] in s;
    }
  }

  /** Text is closed at its end, so cutting off a beginning or adding closed text leaves it closed. */
  lemma TerminatedParts(a: string, b: string)
    ensures Terminated(b) && (b != "" || Terminated(a)) ==> Terminated(a + b)
    ensures Terminated(a + b) ==> Terminated(b)
  {
    TerminatedIs(a);
    TerminatedIs(b);
    TerminatedIs(a + b);
    assert b == "" ==> a + b == a;
  }

  /** The first line of a closed text. */
  lemma FirstLineIs(s: string)
    requires s != "" && Terminated(s)
    ensures var n := LineLength(s);
            '\n' !in s[..n - 1] && s[..n] == s[..n - 1] + "\n" && Terminated(s[..n]) && Terminated(s[n..])
  {
    FindIsFirst(s, '\n');
    var n := LineLength(s);
    assert Find(s, '\n') < |s|;
    TerminatedIs(s[..n]);
  }

  /** The first line of a closed text does not depend on what comes after the text. */
  lemma LineLengthAppend(a: string, b: string)
    requires a != "" && Terminated(a)
    ensures LineLength(a + b) == LineLength(a)
  {
    FirstLineIs(a);
    var n := LineLength(a);
    FindFirst(a[..n - 1], '\n', a[n..] + b);
    assert a + b == a[..n - 1] + ['\n'] + (a[n..] + b) by {
      assert a == a[..n] + a[n..];
    }
  }

  lemma {:induction false} LinesAppend(a: string, b: string)
    requires Terminated(a)
    ensures Lines(a + b) == Lines(a) + Lines(b)
    decreases |a|
  {
    if a == "" {
      assert a + b == b;
    } else {
      var n := LineLength(a);
      FirstLineIs(a);
      LineLengthAppend(a, b);
      SliceAppend(a, b, n);
      LinesAppend(a[n..], b);
      Associative([a[..n]], Lines(a[n..]), Lines(b));
    }
  }

  lemma Associative<T>(a: seq<T>, b: seq<T>, c: seq<T>)
    ensures (a + b) + c == a + (b + c)
  {
  }

  lemma SliceAppend<T>(a: seq<T>, b: seq<T>, n: nat)
    requires n <= |a|
    ensures (a + b)[..n] == a[..n] && (a + b)[n..] == a[n..] + b
  {
  }

  /** The lines of a closed text: its first line, then those of the rest. */
  lemma FirstLine(s: string)
    requires Terminated(s) && s != ""
    ensures var n := LineLength(s);
            && Terminated(s[..n]) && Terminated(s[n..])
            && Lines(s[..n]) == [s[..n]]
            && Lines(s) == [s[..n]] + Lines(s[n..])
  {
    var n := LineLength(s);
    var l := s[..n];
    FirstLineIs(s);
    FindFirst(l[..n - 1], '\n', "");
    assert l == l[..n - 1] + ['\n'] + "";
    assert l[..n] == l && l[n..] == "";
  }
}
