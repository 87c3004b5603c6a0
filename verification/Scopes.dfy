/** Projects and the scope language `project:resource:action`. */
module Scopes {
  import opened Basics
  import opened Text

  datatype Project = Pandaria | Emerald | Constell | Tokencamp | Heirloom | Aspectus

  function Display(p: Project): string {
    match p
    case Pandaria => "pandaria"
    case Emerald => "emerald"
    case Constell => "constell"
    case Tokencamp => "tokencamp"
    case Heirloom => "heirloom"
    case Aspectus => "aspectus"
  }

  function ParseProject(s: string): Option<Project> {
    match s
    case "pandaria" => Some(Pandaria)
    case "emerald" => Some(Emerald)
    case "constell" => Some(Constell)
    case "tokencamp" => Some(Tokencamp)
    case "heirloom" => Some(Heirloom)
    case "aspectus" => Some(Aspectus)
    case _ => None
  }

  /** The projects and their names. */
  ghost const NAMES: map<Project, string> := map[
    Pandaria := "pandaria", Emerald := "emerald", Constell := "constell",
    Tokencamp := "tokencamp", Heirloom := "heirloom", Aspectus := "aspectus"]

  /** Display and parse are inverse: a string parses to p exactly when it is p's display name. */
  lemma ParseDisplay(s: string, p: Project)
    ensures ParseProject(s) == Some(p) <==> s == Display(p)
    ensures p in NAMES && Display(p) == NAMES[p]
  {
  }

  lemma ProjectNames(s: string)
    ensures ParseProject(s).Some? <==> s in NAMES.Values
  {
    forall p: Project ensures p in NAMES && NAMES[p] in NAMES.Values && (ParseProject(s) == Some(p) <==> s == NAMES[p]) {
      ParseDisplay(s, p);
    }
  }

  datatype ScopeError = WrongSegmentCount | EmptySegment | UnknownProject | BadResource | BadAction

  datatype Checked<T> = Ok(value: T) | Err(error: ScopeError)

  predicate IsSegmentChar(c: char) {
    'a' <= c <= 'z' || 'A' <= c <= 'Z' || '0' <= c <= '9' || c == '-' || c == '_'
  }

  predicate ValidSegment(seg: string) {
    seg == "*" || forall i :: 0 <= i < |seg| ==> IsSegmentChar(seg[i])
  }

  function Validate(name: string): Checked<()> {
    var parts := Split(name, ':');
    if |parts| != 3 then Err(WrongSegmentCount)
    else if parts[0] == "" || parts[1] == "" || parts[2] == "" then Err(EmptySegment)
    else if ParseProject(parts[0]).None? then Err(UnknownProject)
    else if !ValidSegment(parts[1]) then Err(BadResource)
    else if !ValidSegment(parts[2]) then Err(BadAction)
    else Ok(())
  }

  function ScopeProject(name: string): Checked<Project> {
    match Validate(name)
    case Err(e) => Err(e)
    case Ok(_) => match ParseProject(Split(name, ':')[0])
                  case Some(p) => Ok(p)
                  case None => Err(UnknownProject)
  }

  function ScopeResource(name: string): Checked<string> {
    match Validate(name)
    case Err(e) => Err(e)
    case Ok(_) => Ok(Split(name, ':')[1])
  }

  function ScopeAction(name: string): Checked<string> {
    match Validate(name)
    case Err(e) => Err(e)
    case Ok(_) => Ok(Split(name, ':')[2])
  }

  /** ASCII letters and digits, hyphen and underscore, by code point. */
  ghost predicate InAlphabet(c: char) {
    48 <= c as int <= 57 || 65 <= c as int <= 90 || 97 <= c as int <= 122 || c as int == 45 || c as int == 95
  }

  ghost predicate IsSegment(seg: string) {
    seg != "" && (seg == "*" || forall c :: c in seg ==> InAlphabet(c))
  }

  /** The grammar: a known project, and two segments that are "*" or nonempty words over [A-Za-z0-9_-]. */
  ghost predicate IsScope(name: string, p: Project, resource: string, action: string) {
    && p in NAMES && name == NAMES[p] + ":" + resource + ":" + action
    && IsSegment(resource) && IsSegment(action)
  }

  ghost predicate InGrammar(name: string) {
    exists p, r, a :: IsScope(name, p, r, a)
  }

  lemma SegmentIff(seg: string)
    ensures IsSegment(seg) <==> seg != "" && ValidSegment(seg)
  {
    assert forall c :: InAlphabet(c) <==> IsSegmentChar(c);
    assert forall i :: 0 <= i < |seg| ==> seg[i] in seg;
  }

  lemma NoColons(p: Project, seg: string)
    requires ValidSegment(seg)
    ensures ':' !in Display(p) && ':' !in seg
  {
  }

  lemma JoinThree(a: string, b: string, c: string)
    ensures Join([a, b, c], ':') == a + ":" + b + ":" + c
  {
    assert [a, b, c][1..] == [b, c] && [b, c][1..] == [c];
    assert Join([b, c], ':') == b + [':'] + c;
    assert a + [':'] + (b + [':'] + c) == a + ":" + b + ":" + c;
  }

  lemma ScopeParts(name: string, p: Project, resource: string, action: string)
    requires IsScope(name, p, resource, action)
    ensures Split(name, ':') == [Display(p), resource, action]
  {
    var parts := [Display(p), resource, action];
    ParseDisplay(name, p);
    SegmentIff(resource);
    SegmentIff(action);
    NoColons(p, resource);
    NoColons(p, action);
    JoinThree(Display(p), resource, action);
    SplitOfJoin(parts, ':');
  }

  /** `validate` accepts exactly the strings of the grammar; the triple is unique and the extractors return it. */
  lemma ValidateIffScope(name: string)
    ensures Validate(name).Ok? <==> InGrammar(name)
    ensures forall p, r, a :: IsScope(name, p, r, a) <==>
              ScopeProject(name) == Ok(p) && ScopeResource(name) == Ok(r) && ScopeAction(name) == Ok(a)
  {
    var parts := Split(name, ':');
    if Validate(name).Ok? {
      var p := ParseProject(parts[0]).value;
      ParseDisplay(parts[0], p);
      JoinOfSplit(name, ':');
      assert parts == [parts[0], parts[1], parts[2]];
      JoinThree(parts[0], parts[1], parts[2]);
      SegmentIff(parts[1]);
      SegmentIff(parts[2]);
      assert IsScope(name, p, parts[1], parts[2]);
    }
    forall p, r, a | IsScope(name, p, r, a)
      ensures ScopeProject(name) == Ok(p) && ScopeResource(name) == Ok(r) && ScopeAction(name) == Ok(a)
    {
      ScopeParts(name, p, r, a);
      ParseDisplay(Display(p), p);
      SegmentIff(r);
      SegmentIff(a);
    }
  }

  lemma {:induction false} SplitCount(s: string, sep: char)
    ensures |Split(s, sep)| == multiset(s)[sep] + 1
  {
    if s != "" {
      SplitCount(s[1..], sep);
      assert multiset(s) == multiset([s[0]]) + multiset(s[1..]) by { assert s == [s[0]] + s[1..]; }
    }
  }

  /** Which error: the count of the colons first, then an empty segment, then the project, then the resource, then
    * the action. */
  lemma ValidateErrors(a: string, b: string, c: string)
    requires ':' !in a && ':' !in b && ':' !in c
    ensures var r := Validate(a + ":" + b + ":" + c);
      if a == "" || b == "" || c == "" then r == Err(EmptySegment)
      else if a !in NAMES.Values then r == Err(UnknownProject)
      else if !IsSegment(b) then r == Err(BadResource)
      else if !IsSegment(c) then r == Err(BadAction)
      else r == Ok(())
  {
    JoinThree(a, b, c);
    SplitOfJoin([a, b, c], ':');
    SegmentIff(b);
    SegmentIff(c);
    ProjectNames(a);
  }

  lemma ColonsDecideFirst(name: string)
    ensures Validate(name) == Err(WrongSegmentCount) <==> multiset(name)[':'] != 2
  {
    SplitCount(name, ':');
  }

  /** A valid scope is a word: it survives joining by spaces. */
  lemma ScopeIsWord(name: string)
    requires Validate(name).Ok?
    ensures IsWord(name)
  {
    ValidateIffScope(name);
    var p, r, a :| IsScope(name, p, r, a);
    ParseDisplay(name, p);
    assert forall c :: c in Display(p) ==> !IsSpace(c);
    assert forall c :: c in r ==> !IsSpace(c);
    assert forall c :: c in a ==> !IsSpace(c);
  }

  /** First segments of the colon-separated words, without empty ones and "*". */
  function ProjectSegments(words: seq<string>): seq<string> {
    if words == [] then []
    else
      var head := Split(words[0], ':')[0];
      (if ':' in words[0] && head != "" && head != "*" then [head] else []) + ProjectSegments(words[1..])
  }

  /** Collecting into an ordered set, left to right. */
  function Collect(xs: seq<string>, acc: seq<string>): seq<string>
    decreases |xs|
  {
    if xs == [] then acc else Collect(xs[1..], Insert(xs[0], acc))
  }

  function ProjectsFromScopes(scopes: string): seq<string> {
    Collect(ProjectSegments(Words(scopes)), [])
  }

  lemma {:induction false} CollectLists(xs: seq<string>, acc: seq<string>)
    requires Increasing(acc)
    ensures Lists(Collect(xs, acc), Elements(acc) + Elements(xs))
    decreases |xs|
  {
    if xs != [] {
      InsertLists(xs[0], acc);
      CollectLists(xs[1..], Insert(xs[0], acc));
      assert Elements(xs) == {xs[0]} + Elements(xs[1..]);
    }
  }

  /** The word, read up to its first colon, names h: words without a colon and the heads "" and "*" name nothing. */
  ghost predicate NamesHead(w: string, h: string) {
    ':' in w && h != "" && h != "*" && ':' !in h && EndsBeforeColon(w, h)
  }

  ghost predicate EndsBeforeColon(w: string, h: string) {
    |h| < |w| && w[..|h| + 1] == h + ":"
  }

  lemma LongerHasColon(w: string, g: string, h: string)
    requires EndsBeforeColon(w, g) && EndsBeforeColon(w, h) && |g| < |h|
    ensures ':' in h
  {
    assert w[..|h| + 1][|g|] == w[..|g| + 1][|g|] == ':';
    assert h[|g|] == ':';
  }

  lemma HeadIff(w: string, h: string)
    ensures NamesHead(w, h) <==> ':' in w && h == Split(w, ':')[0] && h != "" && h != "*"
  {
    if ':' in w {
      HeadIsPrefix(w);
      var head := Split(w, ':')[0];
      if ':' !in h && EndsBeforeColon(w, h) {
        SameHead(w, head, h);
      }
    }
  }

  lemma SameHead(w: string, g: string, h: string)
    requires EndsBeforeColon(w, g) && EndsBeforeColon(w, h) && ':' !in g && ':' !in h
    ensures g == h
  {
    if |g| < |h| {
      LongerHasColon(w, g, h);
    } else if |h| < |g| {
      LongerHasColon(w, h, g);
    } else {
      assert g == w[..|g| + 1][..|g|] && h == w[..|h| + 1][..|h|];
    }
  }

  lemma {:induction false} HeadIsPrefix(w: string)
    requires ':' in w
    ensures var head := Split(w, ':')[0]; ':' !in head && EndsBeforeColon(w, head)
  {
    if w[0] != ':' {
      HeadIsPrefix(w[1..]);
      var rest := Split(w[1..], ':');
      assert w[..|rest[0]| + 2] == [w[0]] + w[1..][..|rest[0]| + 1];
    }
  }

  lemma {:induction false} SegmentsAre(words: seq<string>, h: string)
    ensures h in ProjectSegments(words) <==> exists w :: w in words && NamesHead(w, h)
  {
    if words != [] {
      SegmentsAre(words[1..], h);
      assert words == [words[0]] + words[1..];
      HeadIff(words[0], h);
    }
  }

  /** For every string: the derived projects are the strictly increasing listing of exactly the heads of its words. */
  lemma ProjectsFromScopesIff(scopes: string)
    ensures Increasing(ProjectsFromScopes(scopes))
    ensures forall h :: h in ProjectsFromScopes(scopes) <==> exists w :: w in Words(scopes) && NamesHead(w, h)
  {
    var segments := ProjectSegments(Words(scopes));
    CollectLists(segments, []);
    forall h ensures h in ProjectsFromScopes(scopes) <==> exists w :: w in Words(scopes) && NamesHead(w, h) {
      SegmentsAre(Words(scopes), h);
      assert h in Elements(ProjectsFromScopes(scopes)) <==> h in Elements<string>([]) + Elements(segments);
    }
  }

  ghost predicate AllValid(ws: seq<string>) {
    forall w :: w in ws ==> Validate(w).Ok?
  }

  function Head(w: string): string {
    Split(w, ':')[0]
  }

  lemma HeadOfValid(w: string)
    requires Validate(w).Ok?
    ensures ':' in w && Head(w) != "" && Head(w) != "*"
  {
    if ':' !in w {
      SplitOfWord(w, ':');
    }
    assert ParseProject("*") == None;
  }

  lemma {:induction false} SegmentsOfValid(ws: seq<string>)
    requires AllValid(ws)
    ensures ProjectSegments(ws) == seq(|ws|, i requires 0 <= i < |ws| => Head(ws[i]))
  {
    if ws != [] {
      HeadOfValid(ws[0]);
      SegmentsOfValid(ws[1..]);
    }
  }

  lemma HeadsOfValid(ws: seq<string>, heads: seq<string>)
    requires AllValid(ws) && |heads| == |ws| && forall i :: 0 <= i < |ws| ==> heads[i] == Head(ws[i])
    ensures forall w :: w in ws ==> ScopeProject(w).Ok?
    ensures Elements(heads) == set w | w in ws :: Display(ScopeProject(w).value)
  {
    forall w | w in ws ensures ScopeProject(w).Ok? && Display(ScopeProject(w).value) == Head(w) {
      ParseDisplay(Head(w), ParseProject(Head(w)).value);
    }
    forall i | 0 <= i < |ws| ensures heads[i] in set w | w in ws :: Display(ScopeProject(w).value) {
      assert ws[i] in ws;
    }
    forall w | w in ws ensures Display(ScopeProject(w).value) in heads {
      var i :| 0 <= i < |ws| && ws[i] == w;
      assert heads[i] == Head(w);
    }
  }

  /** For valid scopes joined by spaces, the derived projects are the strictly increasing listing of exactly
    * the display names of their projects. */
  lemma ProjectsOfValidScopes(ws: seq<string>)
    requires AllValid(ws)
    ensures forall w :: w in ws ==> ScopeProject(w).Ok?
    ensures Lists(ProjectsFromScopes(Join(ws, ' ')), set w | w in ws :: Display(ScopeProject(w).value))
  {
    forall w | w in ws ensures IsWord(w) {
      ScopeIsWord(w);
    }
    WordsOfJoin(ws);
    SegmentsOfValid(ws);
    var heads := ProjectSegments(ws);
    HeadsOfValid(ws, heads);
    CollectLists(heads, []);
    assert Elements<string>([]) + Elements(heads) == Elements(heads);
  }
}
