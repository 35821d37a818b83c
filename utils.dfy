/**
 * Text helpers of the chunk selector and keyword gate (core/utils.py):
 * merging sentences into bounded chunks, extracting claim keywords,
 * scoring a chunk by the keywords it contains and picking the top chunks.
 *
 * Page text arrives already split into sentences: the regular-expression
 * split at the top of `split_to_chunks` is not part of this model.
 */
module Utils {
  import opened Seqs

  // ---------------------------------------------------------------------
  // Python string primitives
  // ---------------------------------------------------------------------

  /** The characters for which Python's `str.isspace()` holds, which `str.strip()` removes. */
  predicate IsSpace(c: char) {
    || c == ' '
    || ('\t' <= c <= '\r')
    || ('\U{1C}' <= c <= '\U{1F}')
    || c == '\U{85}' || c == '\U{A0}' || c == '\U{1680}'
    || ('\U{2000}' <= c <= '\U{200A}')
    || c == '\U{2028}' || c == '\U{2029}' || c == '\U{202F}' || c == '\U{205F}' || c == '\U{3000}'
  }

  function StripLeft(s: string): (r: string)
    ensures |r| <= |s|
  {
    if s != [] && IsSpace(s[0]) then StripLeft(s[1..]) else s
  }

  function StripRight(s: string): (r: string)
    ensures |r| <= |s|
  {
    if s != [] && IsSpace(s[|s| - 1]) then StripRight(s[..|s| - 1]) else s
  }

  /** `str.strip()`. */
  function Strip(s: string): string {
    StripRight(StripLeft(s))
  }

  /** Neither end is whitespace. */
  predicate Stripped(s: string) {
    s == [] || (!IsSpace(s[0]) && !IsSpace(s[|s| - 1]))
  }

  lemma {:induction false} StripLeftStripped(s: string)
    ensures StripLeft(s) == [] || !IsSpace(StripLeft(s)[0])
    ensures StripLeft(s) == s[|s| - |StripLeft(s)|..]
  {
    if s != [] && IsSpace(s[0]) {
      StripLeftStripped(s[1..]);
    }
  }

  lemma {:induction false} StripRightKeepsHead(s: string)
    requires s == [] || !IsSpace(s[0])
    ensures Stripped(StripRight(s))
    ensures StripRight(s) == s[..|StripRight(s)|]
  {
    if s != [] && IsSpace(s[|s| - 1]) {
      var t := s[..|s| - 1];
      assert t == [] || t[0] == s[0];
      StripRightKeepsHead(t);
    }
  }

  lemma StrippedIsFixed(s: string)
    requires Stripped(s)
    ensures Strip(s) == s
  {
  }

  /** The result of `strip()` has no whitespace at either end. */
  lemma StripIsStripped(s: string)
    ensures Stripped(Strip(s))
  {
    StripLeftStripped(s);
    StripRightKeepsHead(StripLeft(s));
  }

  /** `" ".join(xs)`. */
  function Join(xs: seq<string>): (r: string)
  {
    if xs == [] then []
    else if |xs| == 1 then xs[0]
    else Join(xs[..|xs| - 1]) + " " + xs[|xs| - 1]
  }

  lemma {:induction false} JoinAppend(a: seq<string>, b: seq<string>)
    requires a != [] && b != []
    ensures Join(a + b) == Join(a) + " " + Join(b)
  {
    if |b| == 1 {
      assert (a + b)[..|a + b| - 1] == a;
    } else {
      var b' := b[..|b| - 1];
      assert (a + b)[..|a + b| - 1] == a + b';
      JoinAppend(a, b');
    }
  }

  /** Every entry is non-empty and has no whitespace at either end. */
  ghost predicate AllWords(xs: seq<string>) {
    forall i :: 0 <= i < |xs| ==> xs[i] != [] && Stripped(xs[i])
  }

  /** Joining such entries gives a non-empty string without whitespace at either end. */
  lemma {:induction false} JoinStripped(xs: seq<string>)
    requires AllWords(xs)
    ensures Stripped(Join(xs))
    ensures xs != [] ==>
      && Join(xs) != []
      && Join(xs)[0] == xs[0][0]
      && Join(xs)[|Join(xs)| - 1] == xs[|xs| - 1][|xs[|xs| - 1]| - 1]
  {
    if |xs| > 1 {
      var init := xs[..|xs| - 1];
      assert AllWords(init) by {
        forall i | 0 <= i < |init| ensures init[i] != [] && Stripped(init[i]) {
          assert init[i] == xs[i];
        }
      }
      JoinStripped(init);
      assert init[0] == xs[0];
      var t := Join(xs);
      assert t == Join(init) + " " + xs[|xs| - 1];
      assert t[0] == Join(init)[0];
      assert t[|t| - 1] == xs[|xs| - 1][|xs[|xs| - 1]| - 1];
      assert !IsSpace(xs[0][0]);
    } else if |xs| == 1 {
      assert Join(xs) == xs[0];
    }
  }

  // ---------------------------------------------------------------------
  // split_to_chunks
  // ---------------------------------------------------------------------

  /** The sentences that are non-empty once stripped, stripped, in order. */
  function Sentences(sents: seq<string>): (r: seq<string>)
    ensures AllWords(r)
  {
    if sents == [] then []
    else
      StripIsStripped(sents[0]);
      (if Strip(sents[0]) == [] then [] else [Strip(sents[0])]) + Sentences(sents[1..])
  }

  /** The concatenation of a list of groups. */
  function Flatten(gs: seq<seq<string>>): seq<string> {
    if gs == [] then [] else Flatten(gs[..|gs| - 1]) + gs[|gs| - 1]
  }

  /** Each group joined by single spaces. */
  function JoinEach(gs: seq<seq<string>>): (r: seq<string>)
    ensures |r| == |gs|
    ensures forall i :: 0 <= i < |gs| ==> r[i] == Join(gs[i])
  {
    seq(|gs|, i requires 0 <= i < |gs| => Join(gs[i]))
  }

  /**
   * The grouping of sentences into chunks that the loop of `split_to_chunks`
   * builds: `done` are the groups already emitted, `cur` the group in the
   * buffer. A sentence joins the buffer while the buffer's length plus its
   * own stays within `maxChars`; otherwise the buffer is emitted (when not
   * empty) and the sentence starts a new one.
   */
  function GroupFrom(ss: seq<string>, maxChars: nat, done: seq<seq<string>>, cur: seq<string>): seq<seq<string>>
    decreases |ss|
  {
    if ss == [] then Close(done, cur)
    else
      var st := Step(Strip(ss[0]), maxChars, done, cur);
      GroupFrom(ss[1..], maxChars, st.0, st.1)
  }

  /** Emits the buffer's group, if there is one. */
  function Close(done: seq<seq<string>>, cur: seq<string>): seq<seq<string>> {
    if cur == [] then done else done + [cur]
  }

  /** One turn of the loop, for the stripped sentence `s`. */
  function Step(s: string, maxChars: nat, done: seq<seq<string>>, cur: seq<string>): (seq<seq<string>>, seq<string>) {
    if s == [] then (done, cur)
    else if |Join(cur)| + |s| <= maxChars then (done, cur + [s])
    else (Close(done, cur), [s])
  }

  /** Which sentences make up each chunk. */
  function Groups(sents: seq<string>, maxChars: nat): seq<seq<string>> {
    GroupFrom(sents, maxChars, [], [])
  }

  /** The chunks `split_to_chunks` returns, as pure value. */
  function Chunked(sents: seq<string>, maxChars: nat): seq<string> {
    JoinEach(Groups(sents, maxChars))
  }

  /**
   * What holds of every group: it is not empty, its sentences are non-empty
   * and stripped, two or more sentences together take at most
   * `maxChars + 1` characters (the limit plus the joining space), and a
   * sentence longer than `maxChars` is alone in its group.
   */
  ghost predicate GroupOk(g: seq<string>, maxChars: nat) {
    && g != []
    && AllWords(g)
    && (|g| >= 2 ==> |Join(g)| <= maxChars + 1)
    && (forall i :: 0 <= i < |g| && |g[i]| > maxChars ==> g == [g[i]])
  }

  ghost predicate AllOk(gs: seq<seq<string>>, maxChars: nat) {
    forall i :: 0 <= i < |gs| ==> GroupOk(gs[i], maxChars)
  }

  lemma {:induction false} JoinSnoc(cur: seq<string>, s: string)
    requires cur != []
    ensures Join(cur + [s]) == Join(cur) + " " + s
  {
    assert (cur + [s])[..|cur + [s]| - 1] == cur;
  }

  lemma {:induction false} FlattenSnoc(gs: seq<seq<string>>, g: seq<string>)
    ensures Flatten(gs + [g]) == Flatten(gs) + g
  {
    assert (gs + [g])[..|gs + [g]| - 1] == gs;
  }

  lemma {:induction false} AllOkSnoc(gs: seq<seq<string>>, g: seq<string>, maxChars: nat)
    requires AllOk(gs, maxChars) && GroupOk(g, maxChars)
    ensures AllOk(gs + [g], maxChars)
  {
    forall i | 0 <= i < |gs + [g]| ensures GroupOk((gs + [g])[i], maxChars) {
      if i < |gs| {
        assert (gs + [g])[i] == gs[i];
      }
    }
  }

  /** A sentence that fits next to the buffer keeps the buffer's group well formed. */
  lemma {:induction false} AppendOk(cur: seq<string>, s: string, maxChars: nat)
    requires cur == [] || GroupOk(cur, maxChars)
    requires s != [] && Stripped(s)
    requires |Join(cur)| + |s| <= maxChars
    ensures GroupOk(cur + [s], maxChars)
  {
    var g := cur + [s];
    assert AllWords(g) by {
      forall i | 0 <= i < |g| ensures g[i] != [] && Stripped(g[i]) {
        if i < |cur| {
          assert g[i] == cur[i];
        }
      }
    }
    if cur == [] {
      assert g == [s];
    } else {
      JoinSnoc(cur, s);
      forall i | 0 <= i < |g| ensures |g[i]| <= maxChars {
        if i < |cur| {
          assert g[i] == cur[i];
        }
      }
    }
  }

  lemma CloseFlatten(done: seq<seq<string>>, cur: seq<string>)
    ensures Flatten(Close(done, cur)) == Flatten(done) + cur
  {
    if cur != [] {
      FlattenSnoc(done, cur);
    }
  }

  lemma CloseOk(done: seq<seq<string>>, cur: seq<string>, maxChars: nat)
    requires AllOk(done, maxChars)
    requires cur == [] || GroupOk(cur, maxChars)
    ensures AllOk(Close(done, cur), maxChars)
  {
    if cur != [] {
      AllOkSnoc(done, cur, maxChars);
    }
  }

  lemma StepFlatten(s: string, maxChars: nat, done: seq<seq<string>>, cur: seq<string>)
    ensures var st := Step(s, maxChars, done, cur);
      Flatten(st.0) + st.1 == Flatten(done) + cur + (if s == [] then [] else [s])
  {
    if s != [] && |Join(cur)| + |s| > maxChars {
      CloseFlatten(done, cur);
    }
  }

  lemma StepOk(s: string, maxChars: nat, done: seq<seq<string>>, cur: seq<string>)
    requires AllOk(done, maxChars)
    requires cur == [] || GroupOk(cur, maxChars)
    requires Stripped(s)
    ensures var st := Step(s, maxChars, done, cur);
      AllOk(st.0, maxChars) && (st.1 == [] || GroupOk(st.1, maxChars))
  {
    if s != [] {
      if |Join(cur)| + |s| <= maxChars {
        AppendOk(cur, s, maxChars);
      } else {
        CloseOk(done, cur, maxChars);
        assert AllWords([s]);
      }
    }
  }

  /** Every group the loop emits is well formed. */
  lemma {:induction false} GroupFromOk(ss: seq<string>, maxChars: nat, done: seq<seq<string>>, cur: seq<string>)
    requires AllOk(done, maxChars)
    requires cur == [] || GroupOk(cur, maxChars)
    ensures AllOk(GroupFrom(ss, maxChars, done, cur), maxChars)
  {
    if ss == [] {
      CloseOk(done, cur, maxChars);
    } else {
      var s := Strip(ss[0]);
      StripIsStripped(ss[0]);
      var st := Step(s, maxChars, done, cur);
      StepOk(s, maxChars, done, cur);
      GroupFromOk(ss[1..], maxChars, st.0, st.1);
    }
  }

  /** The groups use up the stripped non-empty sentences, once each and in order. */
  lemma {:induction false} GroupFromFlatten(ss: seq<string>, maxChars: nat, done: seq<seq<string>>, cur: seq<string>)
    ensures Flatten(GroupFrom(ss, maxChars, done, cur)) == Flatten(done) + cur + Sentences(ss)
  {
    if ss == [] {
      CloseFlatten(done, cur);
    } else {
      var s := Strip(ss[0]);
      var st := Step(s, maxChars, done, cur);
      var one := if s == [] then [] else [s];
      var rest := Sentences(ss[1..]);
      assert GroupFrom(ss, maxChars, done, cur) == GroupFrom(ss[1..], maxChars, st.0, st.1);
      assert Sentences(ss) == one + rest;
      StepFlatten(s, maxChars, done, cur);
      GroupFromFlatten(ss[1..], maxChars, st.0, st.1);
      Assoc(Flatten(done) + cur, one, rest);
    }
  }

  lemma Assoc(a: seq<string>, b: seq<string>, c: seq<string>)
    ensures a + b + c == a + (b + c)
  {
  }

  lemma {:induction false} JoinFlatten(gs: seq<seq<string>>)
    requires forall i :: 0 <= i < |gs| ==> gs[i] != []
    ensures gs != [] ==> Flatten(gs) != []
    ensures Join(JoinEach(gs)) == Join(Flatten(gs))
  {
    if gs != [] {
      var init := gs[..|gs| - 1];
      var g := gs[|gs| - 1];
      assert gs == init + [g];
      assert forall i :: 0 <= i < |init| ==> init[i] == gs[i];
      JoinFlatten(init);
      assert JoinEach(gs) == JoinEach(init) + [Join(g)];
      assert Flatten(gs) == Flatten(init) + g;
      assert g != [];
      if init == [] {
        assert Flatten(gs) == g;
        assert JoinEach(gs) == [Join(g)];
      } else {
        JoinSnoc(JoinEach(init), Join(g));
        JoinAppend(Flatten(init), g);
      }
    }
  }

  lemma {:induction false} InFlatten(gs: seq<seq<string>>, k: nat)
    requires k < |Flatten(gs)|
    ensures exists i, j :: 0 <= i < |gs| && 0 <= j < |gs[i]| && gs[i][j] == Flatten(gs)[k]
  {
    var init := gs[..|gs| - 1];
    var g := gs[|gs| - 1];
    assert Flatten(gs) == Flatten(init) + g;
    if k < |Flatten(init)| {
      InFlatten(init, k);
      var i, j :| 0 <= i < |init| && 0 <= j < |init[i]| && init[i][j] == Flatten(init)[k];
      assert gs[i] == init[i];
    } else {
      assert g[k - |Flatten(init)|] == Flatten(gs)[k];
    }
  }

  /**
   * The chunks `split_to_chunks` builds: each is a group of consecutive
   * sentences joined by single spaces, no chunk is empty, the groups use
   * the non-empty stripped sentences exactly once and in order (so joining
   * the chunks gives back the joined sentences), a chunk of two or more
   * sentences is at most `maxChars + 1` long, and a sentence longer than
   * `maxChars` is a chunk of its own.
   */
  lemma ChunkedSpec(sents: seq<string>, maxChars: nat)
    ensures |Chunked(sents, maxChars)| == |Groups(sents, maxChars)|
    ensures Flatten(Groups(sents, maxChars)) == Sentences(sents)
    ensures forall i :: 0 <= i < |Chunked(sents, maxChars)| ==>
      && Chunked(sents, maxChars)[i] == Join(Groups(sents, maxChars)[i])
      && Chunked(sents, maxChars)[i] != []
      && (|Groups(sents, maxChars)[i]| >= 2 ==> |Chunked(sents, maxChars)[i]| <= maxChars + 1)
    ensures forall k :: 0 <= k < |Sentences(sents)| && |Sentences(sents)[k]| > maxChars ==>
      Sentences(sents)[k] in Chunked(sents, maxChars)
    ensures Join(Chunked(sents, maxChars)) == Join(Sentences(sents))
    ensures Chunked(sents, maxChars) == [] <==> Sentences(sents) == []
  {
    var gs := Groups(sents, maxChars);
    GroupFromOk(sents, maxChars, [], []);
    GroupFromFlatten(sents, maxChars, [], []);
    assert Flatten([]) == [];
    assert Flatten(gs) == Sentences(sents);
    forall i | 0 <= i < |gs| ensures Join(gs[i]) != [] {
      JoinStripped(gs[i]);
    }
    forall k | 0 <= k < |Sentences(sents)| && |Sentences(sents)[k]| > maxChars
      ensures Sentences(sents)[k] in Chunked(sents, maxChars)
    {
      InFlatten(gs, k);
      var i, j :| 0 <= i < |gs| && 0 <= j < |gs[i]| && gs[i][j] == Flatten(gs)[k];
      assert gs[i] == [gs[i][j]];
      assert Chunked(sents, maxChars)[i] == Join([gs[i][j]]);
    }
    JoinFlatten(gs);
  }

  lemma {:induction false} NoSentences(sents: seq<string>)
    requires forall i :: 0 <= i < |sents| ==> Strip(sents[i]) == []
    ensures Sentences(sents) == []
  {
    if sents != [] {
      assert Strip(sents[0]) == [];
      NoSentences(sents[1..]);
    }
  }

  /** No chunk is empty, and text that is empty or only whitespace gives no chunk at all. */
  lemma ChunksNonEmpty(sents: seq<string>, maxChars: nat)
    ensures forall c :: c in Chunked(sents, maxChars) ==> c != []
    ensures (forall i :: 0 <= i < |sents| ==> Strip(sents[i]) == []) ==> Chunked(sents, maxChars) == []
  {
    ChunkedSpec(sents, maxChars);
    if forall i :: 0 <= i < |sents| ==> Strip(sents[i]) == [] {
      NoSentences(sents);
    }
  }

  lemma {:induction false} StripJoinStep(cur: seq<string>, s: string)
    requires AllWords(cur)
    requires s != [] && Stripped(s)
    ensures Strip(Join(cur) + " " + s) == Join(cur + [s])
  {
    if cur == [] {
      assert Join(cur) + " " + s == [' '] + s;
      assert ([' '] + s)[1..] == s;
      assert StripLeft([' '] + s) == StripLeft(s);
      assert cur + [s] == [s];
    } else {
      JoinSnoc(cur, s);
      JoinStripped(cur);
      var t := Join(cur) + " " + s;
      assert t[0] == Join(cur)[0];
      assert t[|t| - 1] == s[|s| - 1];
      StrippedIsFixed(t);
    }
  }

  /** `split_to_chunks` over the sentences of a text. */
  method SplitToChunks(sents: seq<string>, maxChars: nat) returns (chunks: seq<string>)
    ensures chunks == Chunked(sents, maxChars)
  {
    chunks := [];
    var buf: string := [];
    ghost var done: seq<seq<string>> := [];
    ghost var cur: seq<string> := [];
    var i := 0;
    while i < |sents|
      invariant 0 <= i <= |sents|
      invariant GroupFrom(sents[i..], maxChars, done, cur) == Groups(sents, maxChars)
      invariant chunks == JoinEach(done)
      invariant buf == Join(cur)
      invariant AllWords(cur)
    {
      JoinStripped(cur);
      var s := Strip(sents[i]);
      StripIsStripped(sents[i]);
      assert sents[i..][1..] == sents[i + 1..];
      if s != [] {
        if |buf| + |s| <= maxChars {
          StripJoinStep(cur, s);
          buf := Strip(buf + " " + s);
          cur := cur + [s];
        } else {
          if buf != [] {
            chunks := chunks + [buf];
            done := done + [cur];
          }
          buf := s;
          cur := [s];
        }
      }
      i := i + 1;
    }
    JoinStripped(cur);
    if buf != [] {
      chunks := chunks + [buf];
      done := done + [cur];
    }
  }

  // ---------------------------------------------------------------------
  // keywords_from_claim
  // ---------------------------------------------------------------------

  predicate IsUpper(c: char) {
    'A' <= c <= 'Z'
  }

  /** `str.lower()` on one character; only ASCII letters are mapped. */
  function LowerChar(c: char): (r: char)
    ensures !IsUpper(r)
    ensures !IsUpper(c) ==> r == c
  {
    if IsUpper(c) then (c as int + 32) as char else c
  }

  function Lower(s: string): (r: string)
    ensures |r| == |s|
    ensures forall i :: 0 <= i < |s| ==> r[i] == LowerChar(s[i])
  {
    seq(|s|, i requires 0 <= i < |s| => LowerChar(s[i]))
  }

  /** The character class `[a-zA-Zא-ת]`: Latin letters and the Hebrew letters alef to tav. */
  predicate IsWordChar(c: char) {
    ('a' <= c <= 'z') || IsUpper(c) || ('\U{5D0}' <= c <= '\U{5EA}')
  }

  /** A non-empty run of word characters without an upper-case letter. */
  ghost predicate LowerWord(t: string) {
    t != [] && forall i :: 0 <= i < |t| ==> IsWordChar(t[i]) && !IsUpper(t[i])
  }

  /**
   * `re.findall(r"[a-zA-Zא-ת]+", s)`: the maximal runs of word
   * characters, left to right; `cur` is the run being read.
   */
  function TokensFrom(s: string, cur: string): seq<string>
    decreases |s|
  {
    if s == [] then (if cur == [] then [] else [cur])
    else if IsWordChar(s[0]) then TokensFrom(s[1..], cur + [s[0]])
    else (if cur == [] then [] else [cur]) + TokensFrom(s[1..], [])
  }

  function Tokens(s: string): seq<string> {
    TokensFrom(s, [])
  }

  /** The word characters of `s`, in order. */
  function WordChars(s: string): string {
    if s == [] then [] else (if IsWordChar(s[0]) then [s[0]] else []) + WordChars(s[1..])
  }

  /** The concatenation of a list of strings. */
  function Concat(ts: seq<string>): string {
    if ts == [] then [] else ts[0] + Concat(ts[1..])
  }

  lemma {:induction false} ConcatAppend(a: seq<string>, b: seq<string>)
    ensures Concat(a + b) == Concat(a) + Concat(b)
  {
    if a != [] {
      assert (a + b)[0] == a[0] && (a + b)[1..] == a[1..] + b;
      ConcatAppend(a[1..], b);
    } else {
      assert a + b == b;
    }
  }

  /**
   * The tokens are non-empty runs of word characters; read together they
   * are exactly the word characters of the text, in order; and a text
   * without upper-case letters gives tokens without upper-case letters.
   */
  lemma {:induction false} TokensFromSpec(s: string, cur: string)
    requires forall i :: 0 <= i < |cur| ==> IsWordChar(cur[i])
    ensures forall i :: 0 <= i < |TokensFrom(s, cur)| ==> TokensFrom(s, cur)[i] != []
    ensures forall i, j :: 0 <= i < |TokensFrom(s, cur)| && 0 <= j < |TokensFrom(s, cur)[i]| ==>
      IsWordChar(TokensFrom(s, cur)[i][j])
    ensures Concat(TokensFrom(s, cur)) == cur + WordChars(s)
    ensures (forall i :: 0 <= i < |cur| ==> !IsUpper(cur[i])) && (forall i :: 0 <= i < |s| ==> !IsUpper(s[i])) ==>
      forall i :: 0 <= i < |TokensFrom(s, cur)| ==> LowerWord(TokensFrom(s, cur)[i])
    decreases |s|
  {
    var ts := TokensFrom(s, cur);
    var head := if cur == [] then [] else [cur];
    assert Concat(head) == cur;
    if s == [] {
      assert ts == head;
    } else if IsWordChar(s[0]) {
      var cur' := cur + [s[0]];
      TokensFromSpec(s[1..], cur');
      assert WordChars(s) == [s[0]] + WordChars(s[1..]);
      assert cur' + WordChars(s[1..]) == cur + WordChars(s);
      assert (forall i :: 0 <= i < |s| ==> !IsUpper(s[i])) ==> !IsUpper(s[0]) && forall i :: 0 <= i < |s[1..]| ==> !IsUpper(s[1..][i]);
    } else {
      var rest := TokensFrom(s[1..], []);
      TokensFromSpec(s[1..], []);
      assert ts == head + rest;
      ConcatAppend(head, rest);
      assert WordChars(s) == WordChars(s[1..]);
      assert (forall i :: 0 <= i < |s| ==> !IsUpper(s[i])) ==> forall i :: 0 <= i < |s[1..]| ==> !IsUpper(s[1..][i]);
      forall i | 0 <= i < |ts|
        ensures ts[i] != [] && forall j :: 0 <= j < |ts[i]| ==> IsWordChar(ts[i][j])
      {
        if i >= |head| {
          assert ts[i] == rest[i - |head|];
        }
      }
      if (forall i :: 0 <= i < |cur| ==> !IsUpper(cur[i])) && (forall i :: 0 <= i < |s| ==> !IsUpper(s[i])) {
        forall i | 0 <= i < |ts| ensures LowerWord(ts[i]) {
          if i >= |head| {
            assert ts[i] == rest[i - |head|];
          }
        }
      }
    }
  }

  /** The stop words the claim's keywords leave out. */
  const StopWords: set<string> :=
    {"\U{5E9}\U{5DC}", "\U{5E2}\U{5DC}", "\U{5E2}\U{5DD}", "\U{5D0}\U{5DD}", "\U{5D0}\U{5EA}",
     "\U{5D6}\U{5D4}", "\U{5D6}\U{5D5}", "that", "the", "and", "or", "is", "are"}

  /** `[t for t in ts if t not in stop and len(t) > 1]`. */
  function KeepWords(ts: seq<string>): (r: seq<string>)
    ensures forall i :: 0 <= i < |r| ==> r[i] !in StopWords && |r[i]| > 1
    ensures forall t :: t in r <==> t in ts && t !in StopWords && |t| > 1
  {
    if ts == [] then []
    else (if ts[0] !in StopWords && |ts[0]| > 1 then [ts[0]] else []) + KeepWords(ts[1..])
  }

  /** The candidate keywords of a claim, in claim order, repeats kept. */
  function ClaimWords(claim: string): seq<string> {
    KeepWords(Tokens(Lower(claim)))
  }

  /** How many times `w` occurs in `ws`. */
  function Count(ws: seq<string>, w: string): nat {
    if ws == [] then 0 else (if ws[0] == w then 1 else 0) + Count(ws[1..], w)
  }

  lemma {:induction false} CountPositive(ws: seq<string>, w: string)
    ensures Count(ws, w) > 0 <==> w in ws
  {
    if ws != [] {
      CountPositive(ws[1..], w);
      assert w in ws <==> ws[0] == w || w in ws[1..];
    }
  }

  /** The position of the first occurrence of `w`, or `|ws|` when there is none. */
  function IndexOf(ws: seq<string>, w: string): (r: nat)
    ensures r <= |ws|
    ensures r < |ws| <==> w in ws
    ensures r < |ws| ==> ws[r] == w
    ensures forall q :: 0 <= q < r ==> ws[q] != w
  {
    if ws == [] then 0 else if ws[0] == w then 0 else 1 + IndexOf(ws[1..], w)
  }

  lemma {:induction false} IndexOfSnoc(ws: seq<string>, y: string, w: string)
    requires w in ws
    ensures IndexOf(ws + [y], w) == IndexOf(ws, w)
  {
    assert (ws + [y])[0] == ws[0];
    if ws[0] != w {
      assert (ws + [y])[1..] == ws[1..] + [y];
      IndexOfSnoc(ws[1..], y, w);
    }
  }

  /** The distinct words of `ws`, in order of first occurrence (a `Counter`'s key order). */
  function Distinct(ws: seq<string>): (r: seq<string>)
    ensures forall i, j :: 0 <= i < j < |r| ==> r[i] != r[j]
    ensures forall w :: w in r <==> w in ws
  {
    if ws == [] then []
    else
      var init := ws[..|ws| - 1];
      var last := ws[|ws| - 1];
      assert ws == init + [last];
      var d := Distinct(init);
      if last in d then d else d + [last]
  }

  /** `Counter` keys appear in the order the words first occur. */
  lemma {:induction false} DistinctFirstOccurrence(ws: seq<string>)
    ensures forall i, j :: 0 <= i < j < |Distinct(ws)| ==>
      IndexOf(ws, Distinct(ws)[i]) < IndexOf(ws, Distinct(ws)[j])
  {
    if ws != [] {
      var init := ws[..|ws| - 1];
      var last := ws[|ws| - 1];
      assert ws == init + [last];
      var d := Distinct(init);
      DistinctFirstOccurrence(init);
      forall w | w in init ensures IndexOf(ws, w) == IndexOf(init, w) {
        IndexOfSnoc(init, last, w);
      }
      if last !in d {
        assert IndexOf(ws, last) == |init|;
        forall i, j | 0 <= i < j < |d + [last]|
          ensures IndexOf(ws, (d + [last])[i]) < IndexOf(ws, (d + [last])[j])
        {
          assert (d + [last])[i] == d[i];
          if j < |d| {
            assert (d + [last])[j] == d[j];
          }
        }
      }
    }
  }

  /** A word's frequency in `ws`, as a sort key. */
  function FreqKey(ws: seq<string>): string -> int {
    w => Count(ws, w)
  }

  /** `reverse=True` on an integer key: a larger key ranks ahead. */
  function Greater(): (int, int) -> bool {
    (a, b) => a > b
  }

  lemma GreaterIsStrictTotalOrder()
    ensures StrictTotalOrder(Greater())
  {
  }

  /** The distinct words, most frequent first, ties in first-occurrence order (`most_common`). */
  function MostCommon(ws: seq<string>): seq<string> {
    SortBy(Distinct(ws), FreqKey(ws), Greater())
  }

  /** `keywords_from_claim`: `[w for w, _ in Counter(words).most_common(10)]`. */
  function KeywordsFromClaim(claim: string): seq<string> {
    Take(MostCommon(ClaimWords(claim)), 10)
  }

  /**
   * `Counter(ws).most_common()`: each distinct word of `ws` exactly once,
   * most frequent first, and words of equal frequency in the order they
   * first occur.
   */
  lemma MostCommonSpec(ws: seq<string>)
    ensures forall w :: w in MostCommon(ws) <==> w in ws
    ensures forall i, j :: 0 <= i < j < |MostCommon(ws)| ==> MostCommon(ws)[i] != MostCommon(ws)[j]
    ensures forall i, j :: 0 <= i < j < |MostCommon(ws)| ==>
      Count(ws, MostCommon(ws)[i]) >= Count(ws, MostCommon(ws)[j])
    ensures forall i, j :: 0 <= i < j < |MostCommon(ws)| && Count(ws, MostCommon(ws)[i]) == Count(ws, MostCommon(ws)[j]) ==>
      IndexOf(ws, MostCommon(ws)[i]) < IndexOf(ws, MostCommon(ws)[j])
  {
    var d := Distinct(ws);
    var ms := MostCommon(ws);
    SortByMembers(d, FreqKey(ws), Greater());
    SortByNoRepeats(d, FreqKey(ws), Greater());
    GreaterIsStrictTotalOrder();
    SortBySorted(d, FreqKey(ws), Greater());
    forall i, j | 0 <= i < j < |ms| ensures Count(ws, ms[i]) >= Count(ws, ms[j]) {
      assert !Greater()(FreqKey(ws)(ms[j]), FreqKey(ws)(ms[i]));
    }
    DistinctFirstOccurrence(ws);
    forall i, j | 0 <= i < j < |ms| && Count(ws, ms[i]) == Count(ws, ms[j])
      ensures IndexOf(ws, ms[i]) < IndexOf(ws, ms[j])
    {
      assert FreqKey(ws)(ms[i]) == FreqKey(ws)(ms[j]);
      var p, q := SortByKeepsOrder(d, FreqKey(ws), Greater(), i, j);
    }
  }

  /**
   * At most ten keywords, pairwise distinct, each one of the claim's
   * words: a lower-case run of letters of length two or more that is not a
   * stop word.
   */
  lemma KeywordsWellFormed(claim: string)
    ensures |KeywordsFromClaim(claim)| <= 10
    ensures forall i, j :: 0 <= i < j < |KeywordsFromClaim(claim)| ==>
      KeywordsFromClaim(claim)[i] != KeywordsFromClaim(claim)[j]
    ensures forall i :: 0 <= i < |KeywordsFromClaim(claim)| ==>
      && KeywordsFromClaim(claim)[i] in ClaimWords(claim)
      && KeywordsFromClaim(claim)[i] !in StopWords
      && |KeywordsFromClaim(claim)[i]| > 1
      && LowerWord(KeywordsFromClaim(claim)[i])
  {
    var ws := ClaimWords(claim);
    var ms := MostCommon(ws);
    var r := KeywordsFromClaim(claim);
    var ts := Tokens(Lower(claim));
    MostCommonSpec(ws);
    TokensFromSpec(Lower(claim), []);
    forall i | 0 <= i < |r| ensures r[i] in ws && LowerWord(r[i]) {
      assert r[i] == ms[i];
      var k :| 0 <= k < |ts| && ts[k] == r[i];
    }
    forall i, j | 0 <= i < j < |r| ensures r[i] != r[j] {
      assert r[i] == ms[i] && r[j] == ms[j];
    }
  }

  /**
   * The keywords come most frequent first; keywords of equal frequency in
   * the order they first occur in the claim.
   */
  lemma KeywordsByFrequency(claim: string)
    ensures forall i, j :: 0 <= i < j < |KeywordsFromClaim(claim)| ==>
      Count(ClaimWords(claim), KeywordsFromClaim(claim)[i]) >= Count(ClaimWords(claim), KeywordsFromClaim(claim)[j])
    ensures forall i, j ::
      (0 <= i < j < |KeywordsFromClaim(claim)| &&
       Count(ClaimWords(claim), KeywordsFromClaim(claim)[i]) == Count(ClaimWords(claim), KeywordsFromClaim(claim)[j])) ==>
      IndexOf(ClaimWords(claim), KeywordsFromClaim(claim)[i]) < IndexOf(ClaimWords(claim), KeywordsFromClaim(claim)[j])
  {
    var ws := ClaimWords(claim);
    var ms := MostCommon(ws);
    var r := KeywordsFromClaim(claim);
    MostCommonSpec(ws);
    forall i, j | 0 <= i < j < |r|
      ensures Count(ws, r[i]) >= Count(ws, r[j])
      ensures Count(ws, r[i]) == Count(ws, r[j]) ==> IndexOf(ws, r[i]) < IndexOf(ws, r[j])
    {
      assert r[i] == ms[i] && r[j] == ms[j];
    }
  }

  /**
   * The keywords are the most common words: a word of the claim that is
   * not among them is no more frequent than any of them, and is left out
   * only when all ten places are taken.
   */
  lemma KeywordsMostCommon(claim: string, w: string)
    requires w in ClaimWords(claim) && w !in KeywordsFromClaim(claim)
    ensures |KeywordsFromClaim(claim)| == 10
    ensures forall i :: 0 <= i < |KeywordsFromClaim(claim)| ==>
      Count(ClaimWords(claim), w) <= Count(ClaimWords(claim), KeywordsFromClaim(claim)[i])
  {
    MostCommonBeats(ClaimWords(claim), w);
  }

  /** A word left out of the ten most common is no more frequent than any of them. */
  lemma MostCommonBeats(ws: seq<string>, w: string)
    requires w in ws && w !in Take(MostCommon(ws), 10)
    ensures |Take(MostCommon(ws), 10)| == 10
    ensures forall i :: 0 <= i < 10 ==> Count(ws, w) <= Count(ws, Take(MostCommon(ws), 10)[i])
  {
    var ms := MostCommon(ws);
    SortByMembers(Distinct(ws), FreqKey(ws), Greater());
    GreaterIsStrictTotalOrder();
    SortBySorted(Distinct(ws), FreqKey(ws), Greater());
    TakeSortedBeats(ms, FreqKey(ws), Greater(), 10, w);
    forall i | 0 <= i < 10 ensures Count(ws, w) <= Count(ws, ms[i]) {
      assert !Greater()(FreqKey(ws)(w), FreqKey(ws)(ms[i]));
    }
  }

  // ---------------------------------------------------------------------
  // score_chunk_by_keywords
  // ---------------------------------------------------------------------

  /** Python's `p in s` on strings: `p` occurs somewhere in `s` (the empty string always does). */
  predicate IsSubstring(p: string, s: string) {
    p <= s || (s != [] && IsSubstring(p, s[1..]))
  }

  /** `p` occurs in `s` starting at position `i`. */
  predicate OccursAt(p: string, s: string, i: int) {
    0 <= i <= |s| - |p| && s[i..i + |p|] == p
  }

  lemma {:induction false} SubstringWitness(p: string, s: string) returns (i: nat)
    requires IsSubstring(p, s)
    ensures OccursAt(p, s, i)
  {
    if p <= s {
      i := 0;
      assert s[0..|p|] == p;
    } else {
      var j := SubstringWitness(p, s[1..]);
      i := j + 1;
      assert s[i..i + |p|] == s[1..][j..j + |p|];
    }
  }

  lemma {:induction false} WitnessSubstring(p: string, s: string, i: nat)
    requires OccursAt(p, s, i)
    ensures IsSubstring(p, s)
  {
    if i == 0 {
      assert s[..|p|] == p;
    } else {
      assert s[1..][i - 1..i - 1 + |p|] == s[i..i + |p|];
      WitnessSubstring(p, s[1..], i - 1);
    }
  }

  /** `IsSubstring` holds exactly when `p` occurs at some position of `s`. */
  lemma IsSubstringAt(p: string, s: string)
    ensures IsSubstring(p, s) <==> exists i :: OccursAt(p, s, i)
  {
    if IsSubstring(p, s) {
      var i := SubstringWitness(p, s);
    }
    if i :| OccursAt(p, s, i) {
      WitnessSubstring(p, s, i);
    }
  }

  /** How many of the keywords (repeats counted) occur in the lower-cased chunk. */
  function KeywordScore(chunk: string, kws: seq<string>): (r: nat)
    ensures r <= |kws|
  {
    if kws == [] then 0
    else KeywordScore(chunk, kws[..|kws| - 1]) + (if IsSubstring(kws[|kws| - 1], Lower(chunk)) then 1 else 0)
  }

  /**
   * The score is between zero and the number of keywords; it is zero
   * exactly when no keyword occurs in the chunk, and the number of
   * keywords exactly when all of them do.
   */
  lemma {:induction false} KeywordScoreSpec(chunk: string, kws: seq<string>)
    ensures KeywordScore(chunk, kws) <= |kws|
    ensures KeywordScore(chunk, kws) == 0 <==> forall i :: 0 <= i < |kws| ==> !IsSubstring(kws[i], Lower(chunk))
    ensures KeywordScore(chunk, kws) == |kws| <==> forall i :: 0 <= i < |kws| ==> IsSubstring(kws[i], Lower(chunk))
  {
    if kws != [] {
      var init := kws[..|kws| - 1];
      KeywordScoreSpec(chunk, init);
      assert forall i :: 0 <= i < |init| ==> init[i] == kws[i];
    }
  }

  /** `score_chunk_by_keywords`. */
  method ScoreChunkByKeywords(chunk: string, kws: seq<string>) returns (score: nat)
    ensures score == KeywordScore(chunk, kws)
  {
    var c := Lower(chunk);
    score := 0;
    var i := 0;
    while i < |kws|
      invariant 0 <= i <= |kws|
      invariant score == KeywordScore(chunk, kws[..i])
    {
      assert kws[..i + 1][..i] == kws[..i];
      if IsSubstring(kws[i], c) {
        score := score + 1;
      }
      i := i + 1;
    }
    assert kws[..|kws|] == kws;
  }

  // ---------------------------------------------------------------------
  // select_top_chunks
  // ---------------------------------------------------------------------

  /** `[(score_chunk_by_keywords(ch, kws), ch) for ch in chunks]`. */
  function Scored(chunks: seq<string>, kws: seq<string>): (r: seq<(int, string)>)
    ensures |r| == |chunks|
    ensures forall i :: 0 <= i < |chunks| ==> r[i] == (KeywordScore(chunks[i], kws) as int, chunks[i])
  {
    seq(|chunks|, i requires 0 <= i < |chunks| => (KeywordScore(chunks[i], kws) as int, chunks[i]))
  }

  /** `key=lambda x: x[0]`. */
  function ScoreKey(): ((int, string)) -> int {
    (p: (int, string)) => p.0
  }

  /** `scored.sort(key=lambda x: x[0], reverse=True)`: stable, highest score first. */
  function Ranked(chunks: seq<string>, kws: seq<string>): seq<(int, string)> {
    SortBy(Scored(chunks, kws), ScoreKey(), Greater())
  }

  /** `[ch for sc, ch in scored if sc > 0]`. */
  function PositiveChunks(ps: seq<(int, string)>): (r: seq<string>)
    ensures |r| <= |ps|
  {
    if ps == [] then []
    else (if ps[0].0 > 0 then [ps[0].1] else []) + PositiveChunks(ps[1..])
  }

  /** The body of `select_top_chunks` once the page is split and the keywords are known. */
  function SelectTop(chunks: seq<string>, kws: seq<string>, topN: int): seq<string> {
    var filtered := PositiveChunks(Ranked(chunks, kws));
    if filtered != [] then PyPrefix(filtered, topN) else PyPrefix(chunks, topN)
  }

  /** `select_top_chunks` over the sentences of a page, with chunks of at most 500 characters. */
  function SelectTopChunks(sents: seq<string>, claim: string, topN: int): seq<string> {
    SelectTop(Chunked(sents, 500), KeywordsFromClaim(claim), topN)
  }

  /** On a list ranked by score, the positive ones form a prefix. */
  lemma {:induction false} PositiveOfSorted(ps: seq<(int, string)>)
    requires SortedBy(ps, ScoreKey(), Greater())
    ensures forall i :: 0 <= i < |PositiveChunks(ps)| ==> PositiveChunks(ps)[i] == ps[i].1 && ps[i].0 > 0
    ensures forall j :: |PositiveChunks(ps)| <= j < |ps| ==> ps[j].0 <= 0
  {
    if ps != [] {
      var rest := ps[1..];
      assert SortedBy(rest, ScoreKey(), Greater()) by {
        forall i, j | 0 <= i < j < |rest| ensures !Greater()(ScoreKey()(rest[j]), ScoreKey()(rest[i])) {
          assert rest[i] == ps[i + 1] && rest[j] == ps[j + 1];
        }
      }
      PositiveOfSorted(rest);
      var pr := PositiveChunks(rest);
      if ps[0].0 > 0 {
        assert PositiveChunks(ps) == [ps[0].1] + pr;
      } else {
        forall j | 0 <= j < |rest| ensures rest[j].0 <= 0 {
          assert !Greater()(ScoreKey()(ps[j + 1]), ScoreKey()(ps[0]));
        }
        assert pr == [];
        assert PositiveChunks(ps) == [];
      }
    }
  }

  /**
   * The ranked list is sorted by score, highest first; each entry carries
   * its chunk's own score; and every chunk is in it.
   */
  lemma RankedSpec(chunks: seq<string>, kws: seq<string>)
    ensures SortedBy(Ranked(chunks, kws), ScoreKey(), Greater())
    ensures forall k :: 0 <= k < |Ranked(chunks, kws)| ==>
      Ranked(chunks, kws)[k].0 == KeywordScore(Ranked(chunks, kws)[k].1, kws) && Ranked(chunks, kws)[k].1 in chunks
    ensures forall m :: 0 <= m < |chunks| ==> (KeywordScore(chunks[m], kws) as int, chunks[m]) in Ranked(chunks, kws)
  {
    var sc := Scored(chunks, kws);
    var rk := Ranked(chunks, kws);
    GreaterIsStrictTotalOrder();
    SortBySorted(sc, ScoreKey(), Greater());
    SortByMembers(sc, ScoreKey(), Greater());
    forall k | 0 <= k < |rk| ensures rk[k].0 == KeywordScore(rk[k].1, kws) && rk[k].1 in chunks {
      assert rk[k] in sc;
      var m :| 0 <= m < |sc| && sc[m] == rk[k];
    }
    forall m | 0 <= m < |chunks| ensures (KeywordScore(chunks[m], kws) as int, chunks[m]) in rk {
      assert sc[m] in sc;
    }
  }

  /** Some ranked entry is positive exactly when some chunk contains a keyword. */
  lemma SomePositive(chunks: seq<string>, kws: seq<string>)
    ensures PositiveChunks(Ranked(chunks, kws)) != [] <==> exists m :: 0 <= m < |chunks| && KeywordScore(chunks[m], kws) > 0
  {
    var rk := Ranked(chunks, kws);
    RankedSpec(chunks, kws);
    PositiveOfSorted(rk);
    if PositiveChunks(rk) != [] {
      var m :| 0 <= m < |chunks| && chunks[m] == rk[0].1;
    }
    if m0 :| 0 <= m0 < |chunks| && KeywordScore(chunks[m0], kws) > 0 {
      var k0 :| 0 <= k0 < |rk| && rk[k0] == (KeywordScore(chunks[m0], kws) as int, chunks[m0]);
      assert k0 < |PositiveChunks(rk)|;
    }
  }

  /** When some chunk scores above zero, the selection is a prefix of the ranked positive chunks. */
  lemma SelectTopIsRankedPrefix(chunks: seq<string>, kws: seq<string>, topN: int)
    requires exists m :: 0 <= m < |chunks| && KeywordScore(chunks[m], kws) > 0
    ensures SelectTop(chunks, kws, topN) == PyPrefix(PositiveChunks(Ranked(chunks, kws)), topN)
    ensures forall i :: 0 <= i < |SelectTop(chunks, kws, topN)| ==>
      SelectTop(chunks, kws, topN)[i] == Ranked(chunks, kws)[i].1 && Ranked(chunks, kws)[i].0 > 0
  {
    SomePositive(chunks, kws);
    PositiveOfSorted(Ranked(chunks, kws)) by {
      RankedSpec(chunks, kws);
    }
  }

  /** When no chunk contains a keyword, the first `topN` chunks are returned. */
  lemma SelectTopFallback(chunks: seq<string>, kws: seq<string>, topN: int)
    requires forall m :: 0 <= m < |chunks| ==> KeywordScore(chunks[m], kws) == 0
    ensures SelectTop(chunks, kws, topN) == PyPrefix(chunks, topN)
  {
    SomePositive(chunks, kws);
  }

  /** At most `topN` chunks, each a chunk of the page. */
  lemma SelectTopBounds(chunks: seq<string>, kws: seq<string>, topN: int)
    ensures topN >= 0 ==> |SelectTop(chunks, kws, topN)| <= topN
    ensures forall i :: 0 <= i < |SelectTop(chunks, kws, topN)| ==> SelectTop(chunks, kws, topN)[i] in chunks
  {
    var r := SelectTop(chunks, kws, topN);
    if exists m :: 0 <= m < |chunks| && KeywordScore(chunks[m], kws) > 0 {
      SelectTopIsRankedPrefix(chunks, kws, topN);
      RankedSpec(chunks, kws);
    } else {
      SelectTopFallback(chunks, kws, topN);
      assert forall i :: 0 <= i < |r| ==> r[i] == chunks[i];
    }
  }

  /** When some chunk contains a keyword, only such chunks are returned, highest score first. */
  lemma SelectTopRanked(chunks: seq<string>, kws: seq<string>, topN: int)
    requires exists m :: 0 <= m < |chunks| && KeywordScore(chunks[m], kws) > 0
    ensures forall i :: 0 <= i < |SelectTop(chunks, kws, topN)| ==> KeywordScore(SelectTop(chunks, kws, topN)[i], kws) > 0
    ensures forall i, j :: 0 <= i < j < |SelectTop(chunks, kws, topN)| ==>
      KeywordScore(SelectTop(chunks, kws, topN)[i], kws) >= KeywordScore(SelectTop(chunks, kws, topN)[j], kws)
  {
    var rk := Ranked(chunks, kws);
    var r := SelectTop(chunks, kws, topN);
    RankedSpec(chunks, kws);
    SelectTopIsRankedPrefix(chunks, kws, topN);
    forall i, j | 0 <= i < j < |r| ensures KeywordScore(r[i], kws) >= KeywordScore(r[j], kws) {
      assert !Greater()(ScoreKey()(rk[j]), ScoreKey()(rk[i]));
    }
  }

  /**
   * A chunk left out scores no higher than any returned one, and one that
   * contains a keyword is left out only when all `topN` places are taken.
   */
  lemma SelectTopBeatsRest(chunks: seq<string>, kws: seq<string>, topN: int, m: nat)
    requires exists m :: 0 <= m < |chunks| && KeywordScore(chunks[m], kws) > 0
    requires m < |chunks| && chunks[m] !in SelectTop(chunks, kws, topN)
    ensures forall i :: 0 <= i < |SelectTop(chunks, kws, topN)| ==>
      KeywordScore(chunks[m], kws) <= KeywordScore(SelectTop(chunks, kws, topN)[i], kws)
    ensures topN >= 0 && KeywordScore(chunks[m], kws) > 0 ==> |SelectTop(chunks, kws, topN)| == topN
  {
    var rk := Ranked(chunks, kws);
    var r := SelectTop(chunks, kws, topN);
    RankedSpec(chunks, kws);
    PositiveOfSorted(rk);
    SelectTopIsRankedPrefix(chunks, kws, topN);
    var k :| 0 <= k < |rk| && rk[k] == (KeywordScore(chunks[m], kws) as int, chunks[m]);
    assert k >= |r|;
    forall i | 0 <= i < |r| ensures KeywordScore(chunks[m], kws) <= KeywordScore(r[i], kws) {
      assert !Greater()(ScoreKey()(rk[k]), ScoreKey()(rk[i]));
    }
  }

  /** Among the selected chunks, two of equal score keep the order they have on the page. */
  lemma SelectTopTies(chunks: seq<string>, kws: seq<string>, topN: int, i: nat, j: nat) returns (p: nat, q: nat)
    requires exists m :: 0 <= m < |chunks| && KeywordScore(chunks[m], kws) > 0
    requires i < j < |SelectTop(chunks, kws, topN)|
    requires KeywordScore(SelectTop(chunks, kws, topN)[i], kws) == KeywordScore(SelectTop(chunks, kws, topN)[j], kws)
    ensures p < q < |chunks|
    ensures chunks[p] == SelectTop(chunks, kws, topN)[i] && chunks[q] == SelectTop(chunks, kws, topN)[j]
  {
    var sc := Scored(chunks, kws);
    var rk := Ranked(chunks, kws);
    SelectTopIsRankedPrefix(chunks, kws, topN);
    assert ScoreKey()(rk[i]) == ScoreKey()(rk[j]) by {
      RankedSpec(chunks, kws);
    }
    p, q := SortByKeepsOrder(sc, ScoreKey(), Greater(), i, j);
  }
}
