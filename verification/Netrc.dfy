/** Rewriting the GitHub Actions token in the netrc file by string replacement: when that is right, and what holds over
    whole runs of the refresh worker. */
module Netrc {
  import opened Common

  // ----- string replacement -----

  /** All non-overlapping matches of a non-empty pattern, left to right. */
  function Substitute(s: string, old_: string, new_: string): string
    requires old_ != ""
    decreases |s|
  {
    if old_ <= s then new_ + Substitute(s[|old_|..], old_, new_)
    else if s == "" then ""
    else [s[0]] + Substitute(s[1..], old_, new_)
  }

  /** An empty pattern matches before every character and at the end. */
  function Interleave(s: string, new_: string): string {
    if s == "" then new_ else new_ + [s[0]] + Interleave(s[1..], new_)
  }

  /** The library's string replacement. */
  function Replace(s: string, old_: string, new_: string): string {
    if old_ == "" then Interleave(s, new_) else Substitute(s, old_, new_)
  }

  predicate Occurs(part: string, s: string) {
    part <= s || (s != "" && Occurs(part, s[1..]))
  }

  predicate Space(c: char) { c == ' ' || c == '\t' || c == '\n' || c == '\r' }

  predicate SpaceFree(s: string) { forall i :: 0 <= i < |s| ==> !Space(s[i]) }

  /** The end of the text or the start of a gap. */
  predicate AtGap(s: string) { s == "" || Space(s[0]) }

  /** Replacing the empty text puts the new one before every character and once at the end: built up from the right, each
      further character is followed by another copy. */
  lemma {:induction false} ReplaceEmpty(s: string, c: char, b: string)
    ensures Replace("", "", b) == b
    ensures Replace(s + [c], "", b) == Replace(s, "", b) + ([c] + b)
  {
    if s == "" {
      assert "" + [c] == [c] && [c][1..] == "";
      assert b + [c] + b == b + ([c] + b);
    } else {
      assert (s + [c])[1..] == s[1..] + [c];
      ReplaceEmpty(s[1..], c, b);
      Associate(b + [s[0]], Interleave(s[1..], b), [c] + b);
    }
  }

  lemma {:induction false} ReplaceNothing(s: string, a: string, b: string)
    requires a != "" && !Occurs(a, s)
    ensures Substitute(s, a, b) == s
  {
    if s != "" {
      ReplaceNothing(s[1..], a, b);
    }
  }

  lemma {:induction false} ReplaceLength(s: string, a: string, b: string)
    requires a != ""
    ensures |b| > |a| ==> |Substitute(s, a, b)| >= |s| && (Occurs(a, s) ==> |Substitute(s, a, b)| > |s|)
    ensures |b| < |a| ==> |Substitute(s, a, b)| <= |s| && (Occurs(a, s) ==> |Substitute(s, a, b)| < |s|)
    decreases |s|
  {
    if a <= s {
      ReplaceLength(s[|a|..], a, b);
    } else if s != "" {
      ReplaceLength(s[1..], a, b);
    }
  }

  lemma {:induction false} ReplaceChanges(s: string, a: string, b: string)
    requires a != "" && a != b && Occurs(a, s)
    ensures Substitute(s, a, b) != s
    decreases |s|
  {
    if |a| != |b| {
      ReplaceLength(s, a, b);
    } else if a <= s {
      assert Substitute(s, a, b)[..|b|] == b;
      assert s[..|a|] == a;
    } else {
      ReplaceChanges(s[1..], a, b);
      assert Substitute(s, a, b)[1..] == Substitute(s[1..], a, b);
    }
  }

  lemma PrefixWithinWord(w: string, rest: string, a: string)
    requires a != "" && SpaceFree(a) && AtGap(rest)
    ensures a <= w + rest <==> a <= w
  {
    var s := w + rest;
    assert s[..|w|] == w;
    assert |w| < |s| ==> s[|w|] == rest[0];
    if a <= s {
      assert |a| <= |w|;
      assert s[..|a|] == w[..|a|];
    }
  }

  lemma ReplaceMatch(w: string, rest: string, a: string, b: string)
    requires a != "" && SpaceFree(a) && AtGap(rest) && a <= w
    requires Substitute(w[|a|..] + rest, a, b) == Substitute(w[|a|..], a, b) + Substitute(rest, a, b)
    ensures Substitute(w + rest, a, b) == Substitute(w, a, b) + Substitute(rest, a, b)
  {
    PrefixWithinWord(w, rest, a);
    assert (w + rest)[|a|..] == w[|a|..] + rest;
    assert b + (Substitute(w[|a|..], a, b) + Substitute(rest, a, b)) == Substitute(w, a, b) + Substitute(rest, a, b);
  }

  lemma ReplaceSkip(w: string, rest: string, a: string, b: string)
    requires a != "" && SpaceFree(a) && AtGap(rest) && w != "" && !(a <= w)
    requires Substitute(w[1..] + rest, a, b) == Substitute(w[1..], a, b) + Substitute(rest, a, b)
    ensures Substitute(w + rest, a, b) == Substitute(w, a, b) + Substitute(rest, a, b)
  {
    PrefixWithinWord(w, rest, a);
    var x, y := Substitute(w[1..], a, b), Substitute(rest, a, b);
    assert Substitute(w + rest, a, b) == [w[0]] + (x + y) by { assert (w + rest)[1..] == w[1..] + rest; }
    assert Substitute(w, a, b) == [w[0]] + x;
    Associate([w[0]], x, y);
  }

  /** A space-free pattern never matches across the end of a word. */
  lemma {:induction false} ReplaceByWord(w: string, rest: string, a: string, b: string)
    requires a != "" && SpaceFree(a) && AtGap(rest)
    ensures Substitute(w + rest, a, b) == Substitute(w, a, b) + Substitute(rest, a, b)
    decreases |w|
  {
    if w == "" {
      assert w + rest == rest;
    } else if a <= w {
      ReplaceByWord(w[|a|..], rest, a, b);
      ReplaceMatch(w, rest, a, b);
    } else {
      ReplaceByWord(w[1..], rest, a, b);
      ReplaceSkip(w, rest, a, b);
    }
  }

  // ----- templates -----

  /** A file as gaps, fixed words, and the places where the token stands. */
  datatype Token = Gap(c: char) | Word(text: string) | Hole

  type Template = seq<Token>

  predicate TokenOk(k: Token) {
    match k
    case Gap(c) => Space(c)
    case Word(text) => SpaceFree(text)
    case Hole => true
  }

  /** Words and holes are whole words: a gap stands between any two of them. */
  predicate WellFormed(t: Template) {
    && (forall i :: 0 <= i < |t| ==> TokenOk(t[i]))
    && (forall i :: 0 <= i < |t| - 1 ==> t[i].Gap? || t[i + 1].Gap?)
  }

  function Text(k: Token, jwt: string): string {
    match k
    case Gap(c) => [c]
    case Word(text) => text
    case Hole => jwt
  }

  function Fill(t: Template, jwt: string): string {
    if t == [] then "" else Text(t[0], jwt) + Fill(t[1..], jwt)
  }

  /** A token: not empty, and without spaces. */
  predicate Jwt(s: string) { s != "" && SpaceFree(s) }

  predicate OccursInWord(t: Template, jwt: string) {
    exists i :: 0 <= i < |t| && t[i].Word? && Occurs(jwt, t[i].text)
  }

  function ReplacedWords(t: Template, a: string, b: string): Template {
    if t == [] then [] else
    [if t[0].Word? then Word(Replace(t[0].text, a, b)) else t[0]] + ReplacedWords(t[1..], a, b)
  }

  lemma FillAtGap(t: Template, jwt: string)
    requires WellFormed(t) && |t| > 0 && !t[0].Gap?
    ensures AtGap(Fill(t[1..], jwt))
  {
    if |t| > 1 {
      assert t[1].Gap? && TokenOk(t[1]);
    }
  }

  lemma WellFormedTail(t: Template)
    requires WellFormed(t) && |t| > 0
    ensures WellFormed(t[1..]) && TokenOk(t[0])
  {
  }

  lemma ReplaceGap(c: char, rest: string, a: string, b: string)
    requires Space(c) && Jwt(a)
    ensures Substitute([c] + rest, a, b) == [c] + Substitute(rest, a, b)
  {
    assert ([c] + rest)[1..] == rest;
    assert ([c] + rest)[0] == c != a[0];
  }

  lemma ReplaceWhole(a: string, b: string)
    requires a != ""
    ensures Substitute(a, a, b) == b
  {
    assert a[|a|..] == "";
    assert Substitute("", a, b) == "";
  }

  /** What the replacement really does to a filled file: every hole gets the new token, and so does every occurrence of
      the old one inside a fixed word. */
  lemma {:induction false} ReplaceFilled(t: Template, a: string, b: string)
    requires WellFormed(t) && Jwt(a)
    ensures Replace(Fill(t, a), a, b) == Fill(ReplacedWords(t, a, b), b)
  {
    if t != [] {
      WellFormedTail(t);
      ReplaceFilled(t[1..], a, b);
      var rest, t' := Fill(t[1..], a), ReplacedWords(t, a, b);
      assert t'[1..] == ReplacedWords(t[1..], a, b);
      assert Fill(t', b) == Text(t'[0], b) + Substitute(rest, a, b);
      if t[0].Gap? {
        ReplaceGap(t[0].c, rest, a, b);
      } else {
        FillAtGap(t, a);
        ReplaceByWord(Text(t[0], a), rest, a, b);
        ReplaceWhole(a, b);
      }
    }
  }

  lemma SplitAtGap(x: string, r: string, y: string, q: string)
    requires SpaceFree(x) && SpaceFree(y) && AtGap(r) && AtGap(q)
    requires x + r == y + q
    ensures x == y && r == q
  {
    var s := x + r;
    assert |x| < |s| ==> s[|x|] == r[0];
    assert |y| < |s| ==> s[|y|] == q[0];
    assert forall i :: 0 <= i < |x| ==> s[i] == x[i];
    assert forall i :: 0 <= i < |y| ==> s[i] == y[i];
    assert |x| == |y|;
    assert x == s[..|x|] && y == s[..|y|];
    assert r == s[|x|..] && q == s[|y|..];
  }

  lemma {:induction false} ReplaceSpaceFree(w: string, a: string, b: string)
    requires SpaceFree(w) && SpaceFree(b) && a != ""
    ensures SpaceFree(Replace(w, a, b))
    decreases |w|
  {
    if a <= w {
      ReplaceSpaceFree(w[|a|..], a, b);
    } else if w != "" {
      ReplaceSpaceFree(w[1..], a, b);
    }
  }

  lemma ReplacedWordsAtGap(t: Template, a: string, b: string)
    requires WellFormed(t) && |t| > 0 && !t[0].Gap?
    ensures AtGap(Fill(ReplacedWords(t[1..], a, b), b)) && AtGap(Fill(t[1..], b))
  {
    FillAtGap(t, b);
    if |t| > 1 {
      assert t[1].Gap? && TokenOk(t[1]);
    }
  }

  /** The rewrite is right exactly if the old token occurs in no fixed word of the file (or nothing changes). */
  lemma RewriteIsExact(t: Template, a: string, b: string)
    requires WellFormed(t) && Jwt(a) && Jwt(b)
    ensures Replace(Fill(t, a), a, b) == Fill(t, b) <==> a == b || !OccursInWord(t, a)
  {
    ReplaceFilled(t, a, b);
    WordsUnchanged(t, a, b);
  }

  lemma {:induction false} NotWithoutFirst(part: string, s: string)
    requires part != "" && part[0] !in s
    ensures !Occurs(part, s)
  {
    if s != "" {
      NotWithoutFirst(part, s[1..]);
    }
  }

  lemma ReplaceFirst(a: string, rest: string, b: string)
    requires a != "" && a[0] !in rest
    ensures Substitute(a + rest, a, b) == b + rest
  {
    assert (a + rest)[|a|..] == rest;
    NotWithoutFirst(a, rest);
    ReplaceNothing(rest, a, b);
  }

  lemma OtherWordRewritten(rest: string, a: string, b: string)
    requires Jwt(a) && a[0] !in rest
    ensures Substitute((a + rest) + (" " + a), a, b) == (b + rest) + (" " + b)
  {
    ReplaceFirst(a, rest, b);
    ReplaceByWord(a + rest, " " + a, a, b);
    ReplaceGap(' ', a, a, b);
    ReplaceWhole(a, b);
  }

  lemma WitnessTexts()
    ensures ("jwt" + ".host") + (" " + "jwt") == "jwt.host jwt"
    ensures ("new" + ".host") + (" " + "new") == "new.host new"
  {
  }

  /** The condition is needed: where the old token is part of another word, here a host name, that word changes too. */
  lemma RewriteHitsHost() returns (file: string, a: string, b: string)
    ensures file == "jwt.host jwt" && a == "jwt" && b == "new"
    ensures Replace(file, a, b) == "new.host new"
  {
    a, b := "jwt", "new";
    file := (a + ".host") + (" " + a);
    OtherWordRewritten(".host", a, b);
    WitnessTexts();
  }

  lemma {:induction false} WordsUnchanged(t: Template, a: string, b: string)
    requires WellFormed(t) && Jwt(a) && Jwt(b)
    ensures Fill(ReplacedWords(t, a, b), b) == Fill(t, b) <==> a == b || !OccursInWord(t, a)
  {
    if t == [] {
    } else {
      WellFormedTail(t);
      WordsUnchanged(t[1..], a, b);
      OccursInTail(t, a);
      var r, q := Fill(ReplacedWords(t[1..], a, b), b), Fill(t[1..], b);
      assert ReplacedWords(t, a, b)[1..] == ReplacedWords(t[1..], a, b);
      if t[0].Word? {
        var w := t[0].text;
        WordUnchanged(w, a, b);
        ReplacedWordsAtGap(t, a, b);
        ReplaceSpaceFree(w, a, b);
        if Replace(w, a, b) + r == w + q {
          SplitAtGap(Replace(w, a, b), r, w, q);
        }
      } else {
        var x := Text(t[0], b);
        if x + r == x + q {
          assert r == (x + r)[|x|..] && q == (x + q)[|x|..];
        }
      }
    }
  }

  lemma OccursInTail(t: Template, a: string)
    requires |t| > 0
    ensures OccursInWord(t, a) <==> (t[0].Word? && Occurs(a, t[0].text)) || OccursInWord(t[1..], a)
  {
    if i :| 0 <= i < |t| && t[i].Word? && Occurs(a, t[i].text) {
      if i > 0 {
        assert t[1..][i - 1] == t[i];
      }
    }
    if i :| 0 <= i < |t[1..]| && t[1..][i].Word? && Occurs(a, t[1..][i].text) {
      assert t[i + 1] == t[1..][i];
    }
  }

  lemma {:induction false} ReplaceSame(s: string, a: string)
    requires a != ""
    ensures Replace(s, a, a) == s
    decreases |s|
  {
    if a <= s {
      ReplaceSame(s[|a|..], a);
      assert s == a + s[|a|..];
    } else if s != "" {
      ReplaceSame(s[1..], a);
    }
  }

  lemma WordUnchanged(w: string, a: string, b: string)
    requires a != ""
    ensures Replace(w, a, b) == w <==> a == b || !Occurs(a, w)
  {
    if a == b {
      ReplaceSame(w, a);
    } else if Occurs(a, w) {
      ReplaceChanges(w, a, b);
    } else {
      ReplaceNothing(w, a, b);
    }
  }

  // ----- the entry added at startup -----

  /** "name value" */
  function Field(name: string, value: Token): Template { [Word(name), Gap(' '), value] }

  /** A line break, three fields with a blank between them, and two line breaks. */
  function Entry(a: Template, b: Template, c: Template): Template {
    [Gap('\n')] + (a + ([Gap(' ')] + (b + ([Gap(' ')] + (c + [Gap('\n'), Gap('\n')])))))
  }

  /** "machine host login name password <jwt>" */
  function CacheServerEntry(host: string, login: string): Template {
    Entry(Field("machine", Word(host)), Field("login", Word(login)), Field("password", Hole))
  }

  lemma {:induction false} FillAppend(t: Template, more: Template, jwt: string)
    ensures Fill(t + more, jwt) == Fill(t, jwt) + Fill(more, jwt)
  {
    if t == [] {
      assert t + more == more;
    } else {
      assert (t + more)[1..] == t[1..] + more;
      FillAppend(t[1..], more, jwt);
    }
  }

  lemma FillOne(k: Token, jwt: string)
    ensures Fill([k], jwt) == Text(k, jwt)
  {
    assert Fill([k][1..], jwt) == "";
  }

  lemma FillField(name: string, value: Token, jwt: string)
    ensures Fill(Field(name, value), jwt) == name + " " + Text(value, jwt)
  {
    assert Field(name, value)[1..] == [Gap(' '), value];
    assert [Gap(' '), value][1..] == [value];
    FillOne(value, jwt);
  }

  lemma FillGap(c: char, rest: Template, jwt: string)
    ensures Fill([Gap(c)] + rest, jwt) == [c] + Fill(rest, jwt)
  {
    assert ([Gap(c)] + rest)[1..] == rest;
  }

  lemma FillEnd(t: Template, jwt: string)
    ensures Fill(t + [Gap('\n'), Gap('\n')], jwt) == Fill(t, jwt) + "\n\n"
  {
    var end := [Gap('\n'), Gap('\n')];
    assert end[1..] == [Gap('\n')];
    FillOne(Gap('\n'), jwt);
    FillAppend(t, end, jwt);
  }

  lemma FillTwoFields(b: Template, c: Template, jwt: string)
    ensures Fill(b + ([Gap(' ')] + (c + [Gap('\n'), Gap('\n')])), jwt)
            == Fill(b, jwt) + (" " + (Fill(c, jwt) + "\n\n"))
  {
    var end := c + [Gap('\n'), Gap('\n')];
    FillEnd(c, jwt);
    FillGap(' ', end, jwt);
    FillAppend(b, [Gap(' ')] + end, jwt);
  }

  lemma FillEntry(a: Template, b: Template, c: Template, jwt: string)
    ensures Fill(Entry(a, b, c), jwt)
            == "\n" + (Fill(a, jwt) + (" " + (Fill(b, jwt) + (" " + (Fill(c, jwt) + "\n\n")))))
  {
    var two := b + ([Gap(' ')] + (c + [Gap('\n'), Gap('\n')]));
    FillTwoFields(b, c, jwt);
    FillGap(' ', two, jwt);
    FillAppend(a, [Gap(' ')] + two, jwt);
    FillGap('\n', a + ([Gap(' ')] + two), jwt);
  }

  /** Appending the cache server's entry keeps the file a filled template: the same token stands in one more place. */
  lemma StartupEntryFits(t: Template, jwt: string, host: string, login: string)
    requires WellFormed(t) && SpaceFree(host) && SpaceFree(login)
    ensures WellFormed(t + CacheServerEntry(host, login))
    ensures Fill(t + CacheServerEntry(host, login), jwt)
            == Fill(t, jwt) + ("\n" + (("machine" + " " + host) + (" " + (("login" + " " + login)
               + (" " + (("password" + " " + jwt) + "\n\n"))))))
  {
    FillAppend(t, CacheServerEntry(host, login), jwt);
    FillEntry(Field("machine", Word(host)), Field("login", Word(login)), Field("password", Hole), jwt);
    FillField("machine", Word(host), jwt);
    FillField("login", Word(login), jwt);
    FillField("password", Hole, jwt);
    EntryWellFormed(t, host, login);
  }

  lemma FieldWellFormed(name: string, value: Token)
    requires SpaceFree(name) && TokenOk(value)
    ensures WellFormed(Field(name, value)) && |Field(name, value)| == 3
  {
  }

  lemma GlueWellFormed(t: Template, c: char, more: Template)
    requires WellFormed(t) && WellFormed(more) && Space(c)
    ensures WellFormed(t + ([Gap(c)] + more))
  {
  }

  lemma EntryWellFormed(t: Template, host: string, login: string)
    requires WellFormed(t) && SpaceFree(host) && SpaceFree(login)
    ensures WellFormed(t + CacheServerEntry(host, login))
  {
    var a, b, c := Field("machine", Word(host)), Field("login", Word(login)), Field("password", Hole);
    FieldWellFormed("machine", Word(host));
    FieldWellFormed("login", Word(login));
    FieldWellFormed("password", Hole);
    var end: Template := [Gap('\n'), Gap('\n')];
    assert end == [Gap('\n')] + [Gap('\n')];
    GlueWellFormed(c, '\n', [Gap('\n')]);
    GlueWellFormed(b, ' ', c + end);
    GlueWellFormed(a, ' ', b + ([Gap(' ')] + (c + end)));
    GlueWellFormed(t, '\n', a + ([Gap(' ')] + (b + ([Gap(' ')] + (c + end)))));
  }

  // ----- the refresh worker -----

  datatype Phase =
    | Idle
    | Fetched(jwt: string)
    | HasContents(jwt: string, contents: string)
    | Written(jwt: string)
    | Renamed(jwt: string)
    | Stopped

  /** The netrc file, its temporary copy, the worker's own token and the API client's. */
  datatype State = State(file: string, tmp: string, jwt: string, apiToken: string, phase: Phase)

  datatype Step =
    | Fetch(jwt: string) | ReadFile | WriteTmp | Rename | Adopt(accepted: bool)
    | Fail  // the request, the read or the rename fails; nothing has been changed
    | WriteFails(partial: string)

  predicate Enabled(s: State, st: Step) {
    match st
    case Fetch(_) => s.phase.Idle?
    case ReadFile => s.phase.Fetched?
    case WriteTmp | WriteFails(_) => s.phase.HasContents?
    case Rename => s.phase.Written?
    case Adopt(_) => s.phase.Renamed?
    case Fail => s.phase.Idle? || s.phase.Fetched? || s.phase.Written?
  }

  function Do(s: State, st: Step): State
    requires Enabled(s, st)
  {
    match st
    case Fetch(new_) => s.(phase := Fetched(new_))
    case ReadFile => s.(phase := HasContents(s.phase.jwt, s.file))
    case WriteTmp => s.(tmp := Replace(s.phase.contents, s.jwt, s.phase.jwt), phase := Written(s.phase.jwt))
    case WriteFails(partial) => s.(tmp := partial, phase := Idle)
    case Rename => s.(file := s.tmp, phase := Renamed(s.phase.jwt))
    case Adopt(accepted) =>
      if accepted then s.(jwt := s.phase.jwt, apiToken := s.phase.jwt, phase := Idle)
      else s.(jwt := s.phase.jwt, phase := Stopped)
    case Fail => s.(phase := Idle)
  }

  predicate Valid(s: State, steps: seq<Step>)
    decreases |steps|
  {
    steps == [] || (Enabled(s, steps[0]) && Valid(Do(s, steps[0]), steps[1..]))
  }

  function Exec(s: State, steps: seq<Step>): State
    requires Valid(s, steps)
    decreases |steps|
  {
    if steps == [] then s else Exec(Do(s, steps[0]), steps[1..])
  }

  /** A token that can be told apart from everything fixed in the file. */
  predicate GoodJwt(t: Template, jwt: string) { Jwt(jwt) && !OccursInWord(t, jwt) }

  predicate FetchesGood(t: Template, steps: seq<Step>) {
    forall k :: 0 <= k < |steps| && steps[k].Fetch? ==> GoodJwt(t, steps[k].jwt)
  }

  predicate FileInv(t: Template, s: State) {
    && GoodJwt(t, s.jwt)
    && (!s.phase.Idle? && !s.phase.Stopped? ==> GoodJwt(t, s.phase.jwt))
    && s.file == Fill(t, if s.phase.Renamed? then s.phase.jwt else s.jwt)
    && (s.phase.HasContents? ==> s.phase.contents == s.file)
    && (s.phase.Written? ==> s.tmp == Fill(t, s.phase.jwt))
    && (!s.phase.Stopped? ==> s.apiToken == s.jwt)
  }

  lemma StepKeepsFile(t: Template, s: State, st: Step)
    requires WellFormed(t) && FileInv(t, s) && Enabled(s, st)
    requires st.Fetch? ==> GoodJwt(t, st.jwt)
    ensures FileInv(t, Do(s, st))
  {
    if st.WriteTmp? {
      RewriteIsExact(t, s.jwt, s.phase.jwt);
    }
  }

  function Start(t: Template, jwt: string, tmp: string): State {
    State(Fill(t, jwt), tmp, jwt, jwt, Idle)
  }

  /** Over any sequence of refreshes failing at any step, the file is the template filled with exactly the worker's token,
      except between the rename and the return, where it is already filled with the new one; and until a token is
      refused the API client has the worker's token too. */
  lemma FileFollowsToken(t: Template, jwt: string, tmp: string, steps: seq<Step>)
    requires WellFormed(t) && GoodJwt(t, jwt)
    requires Valid(Start(t, jwt, tmp), steps) && FetchesGood(t, steps)
    ensures var s := Exec(Start(t, jwt, tmp), steps);
            && s.file == Fill(t, if s.phase.Renamed? then s.phase.jwt else s.jwt)
            && (!s.phase.Stopped? ==> s.apiToken == s.jwt)
  {
    RunKeepsFile(t, Start(t, jwt, tmp), steps);
  }

  lemma {:induction false} RunKeepsFile(t: Template, s: State, steps: seq<Step>)
    requires WellFormed(t) && FileInv(t, s) && Valid(s, steps) && FetchesGood(t, steps)
    ensures FileInv(t, Exec(s, steps))
    decreases |steps|
  {
    if steps != [] {
      StepKeepsFile(t, s, steps[0]);
      RunKeepsFile(t, Do(s, steps[0]), steps[1..]);
    }
  }

  // ----- which token that is -----

  predicate NoFetch(steps: seq<Step>) { forall k :: 0 <= k < |steps| ==> !steps[k].Fetch? }

  /** The worker adopts a token; with `accepted`, the API client takes it too. */
  predicate Adopts(st: Step, accepted: bool) { st.Adopt? && (accepted ==> st.accepted) }

  predicate NoAdoption(steps: seq<Step>, accepted: bool) {
    forall k :: 0 <= k < |steps| ==> !Adopts(steps[k], accepted)
  }

  predicate LastFetched(steps: seq<Step>, token: string) {
    exists m :: 0 <= m < |steps| && steps[m] == Fetch(token) && NoFetch(steps[m + 1..])
  }

  predicate AdoptedAt(steps: seq<Step>, accepted: bool, n: nat, token: string)
    requires n < |steps|
  {
    Adopts(steps[n], accepted) && NoAdoption(steps[n + 1..], accepted) && LastFetched(steps[..n], token)
  }

  /** The token last fetched before the last adoption, or the one from startup if nothing was adopted. */
  predicate LastAdopted(steps: seq<Step>, accepted: bool, start: string, token: string) {
    || (NoAdoption(steps, accepted) && token == start)
    || exists n :: 0 <= n < |steps| && AdoptedAt(steps, accepted, n, token)
  }

  predicate History(past: seq<Step>, start: string, s: State) {
    && LastAdopted(past, false, start, s.jwt)
    && LastAdopted(past, true, start, s.apiToken)
    && (!s.phase.Idle? && !s.phase.Stopped? ==> LastFetched(past, s.phase.jwt))
  }

  lemma FetchIsLast(past: seq<Step>, token: string)
    ensures LastFetched(past + [Fetch(token)], token)
  {
    var steps := past + [Fetch(token)];
    assert steps[|past|] == Fetch(token) && steps[|past| + 1..] == [];
  }

  lemma FetchStaysLast(past: seq<Step>, st: Step, token: string)
    requires LastFetched(past, token) && !st.Fetch?
    ensures LastFetched(past + [st], token)
  {
    var m :| 0 <= m < |past| && past[m] == Fetch(token) && NoFetch(past[m + 1..]);
    assert (past + [st])[m + 1..] == past[m + 1..] + [st];
    assert (past + [st])[m] == Fetch(token);
  }

  lemma AdoptedAtStays(past: seq<Step>, st: Step, accepted: bool, n: nat, token: string)
    requires n < |past| && AdoptedAt(past, accepted, n, token) && !Adopts(st, accepted)
    ensures AdoptedAt(past + [st], accepted, n, token)
  {
    assert (past + [st])[n + 1..] == past[n + 1..] + [st];
    assert (past + [st])[..n] == past[..n];
  }

  lemma AdoptionStays(past: seq<Step>, st: Step, accepted: bool, start: string, token: string)
    requires LastAdopted(past, accepted, start, token) && !Adopts(st, accepted)
    ensures LastAdopted(past + [st], accepted, start, token)
  {
    if !(NoAdoption(past, accepted) && token == start) {
      var n :| 0 <= n < |past| && AdoptedAt(past, accepted, n, token);
      AdoptedAtStays(past, st, accepted, n, token);
    }
  }

  lemma AdoptionIsLast(past: seq<Step>, st: Step, accepted: bool, start: string, token: string)
    requires LastFetched(past, token) && Adopts(st, accepted)
    ensures LastAdopted(past + [st], accepted, start, token)
  {
    var steps, n := past + [st], |past|;
    assert steps[..n] == past && steps[n + 1..] == [];
    assert AdoptedAt(steps, accepted, n, token);
  }

  lemma StepKeepsHistory(past: seq<Step>, start: string, s: State, st: Step)
    requires History(past, start, s) && Enabled(s, st)
    ensures History(past + [st], start, Do(s, st))
  {
    if st.Adopt? {
      AdoptionIsLast(past, st, false, start, s.phase.jwt);
    } else {
      AdoptionStays(past, st, false, start, s.jwt);
    }
    if st == Adopt(true) {
      AdoptionIsLast(past, st, true, start, s.phase.jwt);
    } else {
      AdoptionStays(past, st, true, start, s.apiToken);
    }
    if st.Fetch? {
      FetchIsLast(past, st.jwt);
    } else if !s.phase.Idle? && !s.phase.Stopped? {
      FetchStaysLast(past, st, s.phase.jwt);
    }
  }

  lemma {:induction false} RunKeepsHistory(past: seq<Step>, start: string, s: State, steps: seq<Step>)
    requires History(past, start, s) && Valid(s, steps)
    ensures History(past + steps, start, Exec(s, steps))
    decreases |steps|
  {
    if steps == [] {
      assert past + steps == past;
    } else {
      StepKeepsHistory(past, start, s, steps[0]);
      RunKeepsHistory(past + [steps[0]], start, Do(s, steps[0]), steps[1..]);
      assert past + [steps[0]] + steps[1..] == past + steps;
    }
  }

  /** Over all runs the worker's token is the one fetched in the last refresh that came to be adopted, and the API client's
      the one in the last refresh that it accepted, or that of the startup if there was none. */
  lemma TokenIsLastAdopted(t: Template, jwt: string, tmp: string, steps: seq<Step>)
    requires Valid(Start(t, jwt, tmp), steps)
    ensures LastAdopted(steps, false, jwt, Exec(Start(t, jwt, tmp), steps).jwt)
    ensures LastAdopted(steps, true, jwt, Exec(Start(t, jwt, tmp), steps).apiToken)
  {
    RunKeepsHistory([], jwt, Start(t, jwt, tmp), steps);
    assert [] + steps == steps;
  }

  lemma Extend(s: State, steps: seq<Step>, st: Step) returns (longer: seq<Step>)
    requires Valid(s, steps) && Enabled(Exec(s, steps), st)
    ensures longer == steps + [st] && Valid(s, longer) && Exec(s, longer) == Do(Exec(s, steps), st)
    decreases |steps|
  {
    longer := steps + [st];
    if steps == [] {
      assert longer[1..] == [];
    } else {
      var rest := Extend(Do(s, steps[0]), steps[1..], st);
      assert longer[1..] == rest;
    }
  }

  function Refresh(token: string): seq<Step> { [Fetch(token), ReadFile, WriteTmp, Rename, Adopt(true)] }

  /** A refresh that nothing disturbs succeeds: in every reachable state in which the worker is idle it can fetch any good
      token, and then the file, the worker and the API client have that token. */
  lemma UndisturbedRefreshSucceeds(t: Template, jwt: string, tmp: string, before: seq<Step>, token: string)
    requires WellFormed(t) && GoodJwt(t, jwt) && GoodJwt(t, token)
    requires Valid(Start(t, jwt, tmp), before) && FetchesGood(t, before)
    requires Exec(Start(t, jwt, tmp), before).phase.Idle?
    ensures Valid(Exec(Start(t, jwt, tmp), before), Refresh(token))
    ensures Exec(Exec(Start(t, jwt, tmp), before), Refresh(token))
            == State(Fill(t, token), Fill(t, token), token, token, Idle)
  {
    var s := Exec(Start(t, jwt, tmp), before);
    RunKeepsFile(t, Start(t, jwt, tmp), before);
    RewriteIsExact(t, s.jwt, token);
    var steps := Extend(s, [], Fetch(token));
    steps := Extend(s, steps, ReadFile);
    steps := Extend(s, steps, WriteTmp);
    steps := Extend(s, steps, Rename);
    steps := Extend(s, steps, Adopt(true));
    assert steps == Refresh(token);
  }

  predicate Failing(st: Step) { st.Fail? || st.WriteFails? }

  predicate NoRename(steps: seq<Step>) { forall k :: 0 <= k < |steps| ==> !steps[k].Rename? }

  /** A refresh that fails, at whatever step, leaves the worker idle with file and tokens as they were. */
  lemma FailedRefreshChangesNothing(s: State, steps: seq<Step>)
    requires s.phase.Idle? && Valid(s, steps) && NoRename(steps)
    requires steps != [] && Failing(steps[|steps| - 1])
    ensures Exec(s, steps) == s.(tmp := Exec(s, steps).tmp)
  {
    NothingBeforeRename(s, steps);
    EndsIdle(s, steps);
  }

  lemma {:induction false} NothingBeforeRename(s: State, steps: seq<Step>)
    requires Valid(s, steps) && NoRename(steps) && !s.phase.Renamed?
    ensures var s' := Exec(s, steps);
            s'.file == s.file && s'.jwt == s.jwt && s'.apiToken == s.apiToken && !s'.phase.Renamed?
    decreases |steps|
  {
    if steps != [] {
      assert !steps[0].Rename?;
      assert forall k :: 0 <= k < |steps[1..]| ==> steps[1..][k] == steps[k + 1];
      NothingBeforeRename(Do(s, steps[0]), steps[1..]);
    }
  }

  lemma {:induction false} EndsIdle(s: State, steps: seq<Step>)
    requires Valid(s, steps) && steps != [] && Failing(steps[|steps| - 1])
    ensures Exec(s, steps).phase.Idle?
    decreases |steps|
  {
    if |steps| > 1 {
      assert steps[1..][|steps[1..]| - 1] == steps[|steps| - 1];
      EndsIdle(Do(s, steps[0]), steps[1..]);
    }
  }

  /** A refresh may fail at every step it takes before the rename has happened, and the API client may refuse the token. */
  lemma AnyStepMayFail(s: State, partial: string)
    ensures s.phase.Idle? || s.phase.Fetched? || s.phase.Written? ==> Enabled(s, Fail)
    ensures s.phase.HasContents? ==> Enabled(s, WriteFails(partial))
    ensures s.phase.Renamed? ==> Enabled(s, Adopt(false))
  {
  }

  /** The worker stops exactly when the API client refuses a token. */
  lemma {:induction false} StopsExactlyOnRefusal(s: State, steps: seq<Step>)
    requires Valid(s, steps)
    ensures Exec(s, steps).phase.Stopped? <==> s.phase.Stopped? || Adopt(false) in steps
    decreases |steps|
  {
    if steps != [] {
      StopsExactlyOnRefusal(Do(s, steps[0]), steps[1..]);
    }
  }
}
