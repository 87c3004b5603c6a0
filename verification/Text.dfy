/** Splitting and joining strings, and the order in which listings are sorted. */
module Text {

  /** The parts between occurrences of `sep`; always at least one. */
  function Split(s: string, sep: char): (parts: seq<string>)
    ensures |parts| >= 1
  {
    if s == "" then [""]
    else
      var rest := Split(s[1..], sep);
      if s[0] == sep then [""] + rest else [[s[0]] + rest[0]] + rest[1..]
  }

  function Join(parts: seq<string>, sep: char): string {
    if |parts| == 0 then "" else if |parts| == 1 then parts[0]
    else parts[0] + [sep] + Join(parts[1..], sep)
  }

  lemma {:induction false} SplitParts(s: string, sep: char)
    ensures forall p :: p in Split(s, sep) ==> sep !in p
  {
    if s != "" {
      SplitParts(s[1..], sep);
    }
  }

  lemma {:induction false} JoinOfSplit(s: string, sep: char)
    ensures Join(Split(s, sep), sep) == s
  {
    if s != "" {
      var rest := Split(s[1..], sep);
      JoinOfSplit(s[1..], sep);
      if s[0] == sep {
        assert ([""] + rest)[1..] == rest;
        assert s == [sep] + s[1..];
      } else {
        assert s == [s[0]] + s[1..];
        if |rest| > 1 {
          assert ([[s[0]] + rest[0]] + rest[1..])[1..] == rest[1..];
        }
      }
    }
  }

  lemma {:induction false} SplitOfPrefix(p: string, tail: string, sep: char)
    requires sep !in p
    ensures Split(p + [sep] + tail, sep) == [p] + Split(tail, sep)
  {
    var s := p + [sep] + tail;
    if p == "" {
      assert s[1..] == tail;
    } else {
      SplitOfPrefix(p[1..], tail, sep);
      assert s[1..] == p[1..] + [sep] + tail;
      assert ([p[1..]] + Split(tail, sep))[1..] == Split(tail, sep);
      assert [p[0]] + p[1..] == p;
    }
  }

  lemma {:induction false} SplitOfWord(p: string, sep: char)
    requires sep !in p
    ensures Split(p, sep) == [p]
  {
    if p != "" {
      SplitOfWord(p[1..], sep);
      assert [p[0]] + p[1..] == p;
    }
  }

  lemma {:induction false} SplitOfJoin(parts: seq<string>, sep: char)
    requires |parts| >= 1 && forall p :: p in parts ==> sep !in p
    ensures Split(Join(parts, sep), sep) == parts
  {
    if |parts| == 1 {
      SplitOfWord(parts[0], sep);
    } else {
      SplitOfJoin(parts[1..], sep);
      SplitOfPrefix(parts[0], Join(parts[1..], sep), sep);
    }
  }

  /** The Unicode White_Space property, as Rust's `char::is_whitespace` has it. */
  predicate IsSpace(c: char) {
    || '\U{9}' <= c <= '\U{D}' || c == ' ' || c == '\U{85}' || c == '\U{A0}' || c == '\U{1680}'
    || '\U{2000}' <= c <= '\U{200A}' || c == '\U{2028}' || c == '\U{2029}' || c == '\U{202F}'
    || c == '\U{205F}' || c == '\U{3000}'
  }

  lemma SpacesListed(c: char)
    ensures IsSpace(c) <==>
      c as int in [0x9, 0xA, 0xB, 0xC, 0xD, 0x20, 0x85, 0xA0, 0x1680, 0x2000, 0x2001, 0x2002, 0x2003, 0x2004, 0x2005,
                   0x2006, 0x2007, 0x2008, 0x2009, 0x200A, 0x2028, 0x2029, 0x202F, 0x205F, 0x3000]
  {
  }

  /** A nonempty string without white space. */
  predicate IsWord(s: string) {
    s != "" && forall c :: c in s ==> !IsSpace(c)
  }

  /** Maximal runs of non-space characters; `word` is the run read so far. */
  function WordsFrom(word: string, s: string): seq<string>
    decreases |s|
  {
    if s == "" then (if word == "" then [] else [word])
    else if IsSpace(s[0]) then (if word == "" then [] else [word]) + WordsFrom("", s[1..])
    else WordsFrom(word + [s[0]], s[1..])
  }

  /** `str::split_whitespace`. */
  function Words(s: string): seq<string> {
    WordsFrom("", s)
  }

  lemma {:induction false} WordsAreWords(word: string, s: string)
    requires word == "" || IsWord(word)
    ensures forall w :: w in WordsFrom(word, s) ==> IsWord(w)
    decreases |s|
  {
    if s != "" {
      if IsSpace(s[0]) {
        WordsAreWords("", s[1..]);
      } else {
        WordsAreWords(word + [s[0]], s[1..]);
      }
    }
  }

  lemma {:induction false} WordsOfWord(word: string, w: string, tail: string)
    requires forall c :: c in w ==> !IsSpace(c)
    ensures WordsFrom(word, w + tail) == WordsFrom(word + w, tail)
    decreases |w|
  {
    if w == "" {
      assert w + tail == tail && word + w == word;
    } else {
      assert (w + tail)[1..] == w[1..] + tail;
      WordsOfWord(word + [w[0]], w[1..], tail);
      assert word + [w[0]] + w[1..] == word + w;
    }
  }

  lemma {:induction false} WordsOfJoin(ws: seq<string>)
    requires forall w :: w in ws ==> IsWord(w)
    ensures Words(Join(ws, ' ')) == ws
  {
    if ws != [] { assert IsWord(ws[0]); }
    if |ws| == 1 {
      WordsOfWord("", ws[0], "");
      assert ws[0] + "" == ws[0] && "" + ws[0] == ws[0];
    } else if |ws| > 1 {
      var rest := Join(ws[1..], ' ');
      WordsOfJoin(ws[1..]);
      WordsOfWord("", ws[0], [' '] + rest);
      assert ws[0] + [' '] + rest == ws[0] + ([' '] + rest);
      assert "" + ws[0] == ws[0] && ([' '] + rest)[1..] == rest;
    }
  }

  /** Joining by spaces and splitting at white space gives a list back exactly when it consists of words. */
  lemma WordsOfJoinIff(ws: seq<string>)
    ensures Words(Join(ws, ' ')) == ws <==> forall w :: w in ws ==> IsWord(w)
  {
    if forall w :: w in ws ==> IsWord(w) {
      WordsOfJoin(ws);
    }
    WordsAreWords("", Join(ws, ' '));
  }

  lemma {:induction false} WordsFromApart(word: string, s: string, space: char, rest: string)
    requires IsSpace(space)
    ensures WordsFrom(word, s + [space] + rest) == WordsFrom(word, s) + Words(rest)
    decreases |s|
  {
    if s == "" {
      assert (s + [space] + rest)[1..] == rest;
    } else {
      assert (s + [space] + rest)[1..] == s[1..] + [space] + rest;
      WordsFromApart(if IsSpace(s[0]) then "" else word + [s[0]], s[1..], space, rest);
    }
  }

  /** White space separates, however much of it: with the words themselves and the empty string this says what
    * `Words` is on every string. */
  lemma WordsApart(s: string, space: char, rest: string)
    ensures IsSpace(space) ==> Words(s + [space] + rest) == Words(s) + Words(rest)
    ensures IsWord(s) ==> Words(s) == [s]
    ensures Words("") == []
  {
    if IsSpace(space) { WordsFromApart("", s, space, rest); }
    if IsWord(s) { WordsOfJoin([s]); }
  }

  /** Strict lexicographic order by character. */
  predicate Below(a: string, b: string) {
    b != "" && (a == "" || a[0] < b[0] || (a[0] == b[0] && Below(a[1..], b[1..])))
  }

  /** The first difference decides, and a proper prefix comes first. */
  lemma {:induction false} BelowIff(a: string, b: string)
    ensures Below(a, b) <==>
      exists i :: 0 <= i <= |a| && i < |b| && a[..i] == b[..i] && (i == |a| || a[i] < b[i])
  {
    if b != "" && (a == "" || a[0] != b[0]) {
      assert a[..0] == b[..0];
    } else if b != "" {
      BelowIff(a[1..], b[1..]);
      if i :| 0 <= i <= |a| && i < |b| && a[..i] == b[..i] && (i == |a| || a[i] < b[i]) {
        assert i > 0;
        assert a[1..][..i - 1] == a[..i][1..] == b[..i][1..] == b[1..][..i - 1];
      }
      if i :| 0 <= i <= |a[1..]| && i < |b[1..]| && a[1..][..i] == b[1..][..i] && (i == |a[1..]| || a[1..][i] < b[1..][i]) {
        assert a[..i + 1] == [a[0]] + a[1..][..i] && b[..i + 1] == [b[0]] + b[1..][..i];
      }
    }
  }

  lemma {:induction false} BelowTransitive(a: string, b: string, c: string)
    requires Below(a, b) && Below(b, c)
    ensures Below(a, c)
  {
    if a != "" && a[0] == b[0] == c[0] {
      BelowTransitive(a[1..], b[1..], c[1..]);
    }
  }

  lemma {:induction false} BelowTotal(a: string, b: string)
    ensures Below(a, b) || a == b || Below(b, a)
  {
    if a != "" && b != "" && a[0] == b[0] {
      BelowTotal(a[1..], b[1..]);
      assert a == [a[0]] + a[1..] && b == [b[0]] + b[1..];
    }
  }

  lemma {:induction false} BelowIrreflexive(a: string)
    ensures !Below(a, a)
  {
    if a != "" {
      BelowIrreflexive(a[1..]);
    }
  }

  ghost predicate Increasing(xs: seq<string>) {
    forall i, j :: 0 <= i < j < |xs| ==> Below(xs[i], xs[j])
  }

  ghost function Elements<T>(xs: seq<T>): set<T> {
    set x | x in xs
  }

  /** The strictly increasing listing of a set: what a distinct ordered query and an ordered set produce. */
  ghost predicate Lists(xs: seq<string>, s: set<string>) {
    Increasing(xs) && Elements(xs) == s
  }

  /** Insert into a strictly increasing list; an element already there is not added twice. */
  function Insert(x: string, xs: seq<string>): seq<string> {
    if xs == [] then [x]
    else if x == xs[0] then xs
    else if Below(x, xs[0]) then [x] + xs
    else [xs[0]] + Insert(x, xs[1..])
  }

  lemma {:induction false} InsertLists(x: string, xs: seq<string>)
    requires Increasing(xs)
    ensures Lists(Insert(x, xs), Elements(xs) + {x})
  {
    var r := Insert(x, xs);
    if xs == [] || x == xs[0] {
    } else if Below(x, xs[0]) {
      forall j | 0 < j < |r| ensures Below(r[0], r[j]) {
        if j > 1 { BelowTransitive(x, xs[0], xs[j - 1]); }
      }
    } else {
      BelowTotal(x, xs[0]);
      InsertLists(x, xs[1..]);
      var t := Insert(x, xs[1..]);
      assert Elements(xs) == {xs[0]} + Elements(xs[1..]);
      forall j | 0 < j < |r| ensures Below(r[0], r[j]) {
        assert r[j] == t[j - 1] && t[j - 1] in Elements(t);
      }
      assert Elements(r) == {xs[0]} + Elements(t);
    }
  }

  /** A set has one strictly increasing listing. */
  lemma {:induction false} ListsUnique(xs: seq<string>, ys: seq<string>)
    requires Increasing(xs) && Increasing(ys) && Elements(xs) == Elements(ys)
    ensures xs == ys
  {
    assert |xs| > 0 ==> xs[0] in Elements(ys);
    assert |ys| > 0 ==> ys[0] in Elements(xs);
    if |xs| > 0 {
      HeadsAgree(xs, ys);
      TailElements(xs);
      TailElements(ys);
      ListsUnique(xs[1..], ys[1..]);
    }
  }

  lemma HeadsAgree(xs: seq<string>, ys: seq<string>)
    requires xs != [] && ys != [] && Increasing(xs) && Increasing(ys) && Elements(xs) == Elements(ys)
    ensures xs[0] == ys[0]
  {
    assert xs[0] in Elements(ys) && ys[0] in Elements(xs);
    var i :| 0 <= i < |ys| && ys[i] == xs[0];
    var j :| 0 <= j < |xs| && xs[j] == ys[0];
    if i > 0 && j > 0 {
      BelowTransitive(xs[0], ys[0], xs[0]);
      BelowIrreflexive(xs[0]);
    }
  }

  lemma TailElements(xs: seq<string>)
    requires xs != [] && Increasing(xs)
    ensures Elements(xs[1..]) == Elements(xs) - {xs[0]}
  {
    BelowIrreflexive(xs[0]);
    forall x | x in Elements(xs) && x != xs[0] ensures x in xs[1..] {
      var i :| 0 <= i < |xs| && xs[i] == x;
      assert xs[1..][i - 1] == x;
    }
  }
}
