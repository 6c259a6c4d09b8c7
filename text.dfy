/** Character classes and the string operations of Go's standard library that
    the core relies on: unicode.IsSpace, strings.ToLower (ASCII letters only),
    strings.FieldsFunc with the "space but not newline" separator, and
    strings.Join with a single space. */
module Text {

  /** Go's unicode.IsSpace: the Unicode White_Space code points. */
  predicate IsSpace(c: char) {
    var n := c as int;
    (9 <= n <= 13) || n == 0x20 || n == 0x85 || n == 0xA0 || n == 0x1680
    || (0x2000 <= n <= 0x200A) || n == 0x2028 || n == 0x2029 || n == 0x202F
    || n == 0x205F || n == 0x3000
  }

  /** The separator of parseMessage's split: white space other than '\n'. */
  predicate IsFieldSep(c: char) {
    c != '\n' && IsSpace(c)
  }

  predicate NoSeparator(s: string) {
    forall i :: 0 <= i < |s| ==> !IsFieldSep(s[i])
  }

  /** A possible field: non-empty and free of separators. */
  predicate IsToken(s: string) {
    s != [] && NoSeparator(s)
  }

  predicate IsUpper(c: char) {
    'A' <= c <= 'Z'
  }

  function LowerChar(c: char): (d: char)
    ensures !IsUpper(d)
    ensures !IsUpper(c) ==> d == c
    ensures IsUpper(c) ==> 'a' <= d <= 'z' && d as int - 'a' as int == c as int - 'A' as int
  {
    if IsUpper(c) then (c as int + 32) as char else c
  }

  /** strings.ToLower restricted to ASCII letters. */
  function Lower(s: string): (r: string)
    ensures |r| == |s|
    ensures forall i :: 0 <= i < |r| ==> !IsUpper(r[i])
    ensures forall i :: 0 <= i < |s| && !IsUpper(s[i]) ==> r[i] == s[i]
    ensures forall i :: 0 <= i < |s| && IsUpper(s[i]) ==> r[i] as int == s[i] as int + 32
  {
    seq(|s|, i requires 0 <= i < |s| => LowerChar(s[i]))
  }

  /** Lowering leaves characters other than A-Z where they are, so it neither
      adds nor removes a line break. */
  lemma {:induction false} LowerKeepsNewlines(s: string)
    ensures '\n' in Lower(s) <==> '\n' in s
  {
    var r := Lower(s);
    if '\n' in s {
      var i :| 0 <= i < |s| && s[i] == '\n';
      assert r[i] == '\n';
    }
    if '\n' in r {
      var i :| 0 <= i < |r| && r[i] == '\n';
      assert s[i] == '\n';
    }
  }

  /** Names that differ only in the case of ASCII letters lower to the same
      key, so a command created as "Foo" is stored under "foo". */
  lemma LowerExample()
    ensures Lower("Foo") == "foo" && Lower("foo") == "foo"
  {
    assert Lower("Foo")[0] == 'f';
  }

  lemma {:induction false} LowerIdempotent(s: string)
    ensures Lower(Lower(s)) == Lower(s)
  {
  }

  /** The number of separators s starts with. */
  function SeparatorRun(s: string): (n: nat)
    ensures n <= |s|
    ensures forall i :: 0 <= i < n ==> IsFieldSep(s[i])
    ensures n < |s| ==> !IsFieldSep(s[n])
  {
    if s != [] && IsFieldSep(s[0]) then 1 + SeparatorRun(s[1..]) else 0
  }

  /** The length of the longest prefix of s without a separator. */
  function WordLength(s: string): (n: nat)
    ensures n <= |s|
    ensures forall i :: 0 <= i < n ==> !IsFieldSep(s[i])
    ensures n < |s| ==> IsFieldSep(s[n])
  {
    if s == [] || IsFieldSep(s[0]) then 0 else 1 + WordLength(s[1..])
  }

  /** Every character of s is a separator, so s has no field. */
  predicate NoField(s: string) {
    forall i :: 0 <= i < |s| ==> IsFieldSep(s[i])
  }

  /** strings.FieldsFunc(s, IsFieldSep): the maximal runs of non-separators. */
  function Fields(s: string): (fs: seq<string>)
    decreases |s|
  {
    var t := s[SeparatorRun(s)..];
    if t == [] then []
    else
      var n := WordLength(t);
      assert n > 0;
      [t[..n]] + Fields(t[n..])
  }

  predicate AllTokens(fs: seq<string>) {
    forall k :: 0 <= k < |fs| ==> IsToken(fs[k])
  }

  /** Every field is non-empty and holds no separator. */
  lemma {:induction false} FieldsAreTokens(s: string)
    decreases |s|
    ensures AllTokens(Fields(s))
  {
    var a := SeparatorRun(s);
    var t := s[a..];
    if t != [] {
      assert t[0] == s[a];
      var n := WordLength(t);
      WordIsToken(t);
      FieldsAreTokens(t[n..]);
      FieldsUnfold(s);
      TokensCons(t[..n], Fields(t[n..]));
    }
  }

  lemma WordIsToken(t: string)
    requires t != [] && !IsFieldSep(t[0])
    ensures IsToken(t[..WordLength(t)])
  {
  }

  lemma TokensCons(w: string, fs: seq<string>)
    requires IsToken(w) && AllTokens(fs)
    ensures AllTokens([w] + fs)
  {
  }

  /** There is no field exactly when every character is a separator. */
  lemma {:induction false} FieldsEmptyIff(s: string)
    ensures Fields(s) == [] <==> NoField(s)
  {
    var a := SeparatorRun(s);
    if a == |s| {
      assert s[a..] == [];
    } else {
      assert s[a..] != [];
    }
  }

  /** strings.Join(fs, " "). */
  function JoinSpace(fs: seq<string>): string {
    if fs == [] then ""
    else if |fs| == 1 then fs[0]
    else fs[0] + " " + JoinSpace(fs[1..])
  }

  /** The characters of s that are not separators, in order. */
  function Kept(s: string): string {
    if s == [] then ""
    else if IsFieldSep(s[0]) then Kept(s[1..])
    else [s[0]] + Kept(s[1..])
  }

  function Concat(fs: seq<string>): string {
    if fs == [] then "" else fs[0] + Concat(fs[1..])
  }

  lemma {:induction false} KeptAppend(a: string, b: string)
    ensures Kept(a + b) == Kept(a) + Kept(b)
  {
    if a == [] {
      assert a + b == b;
    } else {
      assert (a + b)[1..] == a[1..] + b;
      KeptAppend(a[1..], b);
    }
  }

  lemma {:induction false} KeptOfSeparators(s: string)
    requires NoField(s)
    ensures Kept(s) == ""
  {
    if s != [] {
      KeptOfSeparators(s[1..]);
    }
  }

  lemma {:induction false} KeptOfWord(s: string)
    requires NoSeparator(s)
    ensures Kept(s) == s
  {
    if s != [] {
      KeptOfWord(s[1..]);
    }
  }

  lemma {:induction false} KeptSkipsSeparators(s: string)
    ensures Kept(s[SeparatorRun(s)..]) == Kept(s)
  {
    var a := SeparatorRun(s);
    assert s == s[..a] + s[a..];
    KeptAppend(s[..a], s[a..]);
    KeptOfSeparators(s[..a]);
  }

  lemma {:induction false} KeptSplitsAtWord(t: string, n: nat)
    requires n <= |t| && NoSeparator(t[..n])
    ensures Kept(t) == t[..n] + Kept(t[n..])
  {
    assert t == t[..n] + t[n..];
    KeptAppend(t[..n], t[n..]);
    KeptOfWord(t[..n]);
  }

  /** Splitting loses exactly the separators: the fields, put back together,
      are the non-separator characters of s in their order. */
  lemma {:induction false} FieldsKeepEverythingElse(s: string)
    decreases |s|
    ensures Concat(Fields(s)) == Kept(s)
  {
    var a := SeparatorRun(s);
    var t := s[a..];
    KeptSkipsSeparators(s);
    if t != [] {
      var n := WordLength(t);
      assert t[0] == s[a];
      assert 0 < n <= |t| <= |s|;
      KeptSplitsAtWord(t, n);
      FieldsKeepEverythingElse(t[n..]);
      FieldsUnfold(s);
      ConcatCons(t[..n], Fields(t[n..]));
    }
  }

  lemma {:induction false} FieldsUnfold(s: string)
    ensures var t := s[SeparatorRun(s)..];
      t != [] ==> Fields(s) == [t[..WordLength(t)]] + Fields(t[WordLength(t)..])
  {
  }

  lemma {:induction false} ConcatCons(w: string, fs: seq<string>)
    ensures Concat([w] + fs) == w + Concat(fs)
  {
    assert ([w] + fs)[1..] == fs;
  }

  /** A separator in front does not change the fields. */
  lemma {:induction false} LeadingSeparator(c: char, s: string)
    requires IsFieldSep(c)
    ensures Fields([c] + s) == Fields(s)
  {
    assert ([c] + s)[1..] == s;
    assert SeparatorRun([c] + s) == 1 + SeparatorRun(s);
    assert ([c] + s)[1 + SeparatorRun(s)..] == s[SeparatorRun(s)..];
  }

  /** A word followed by a separator is a field of its own. */
  lemma {:induction false} WordThenRest(w: string, rest: string)
    requires w != [] && NoSeparator(w)
    requires rest == [] || IsFieldSep(rest[0])
    ensures Fields(w + rest) == [w] + Fields(rest)
  {
    var s := w + rest;
    assert SeparatorRun(s) == 0;
    assert s[0..] == s;
    WordLengthOf(w, rest);
    assert s[..|w|] == w && s[|w|..] == rest;
  }

  lemma {:induction false} WordLengthOf(w: string, rest: string)
    requires NoSeparator(w)
    requires rest == [] || IsFieldSep(rest[0])
    ensures WordLength(w + rest) == |w|
  {
    if w != [] {
      assert (w + rest)[1..] == w[1..] + rest;
      WordLengthOf(w[1..], rest);
    }
  }

  lemma {:induction false} JoinSpaceCons(fs: seq<string>)
    requires |fs| >= 2
    ensures JoinSpace(fs) == fs[0] + ([' '] + JoinSpace(fs[1..]))
  {
  }

  /** Joining puts exactly one space between neighbours and nothing else:
      the joined text is as long as the parts together plus one per gap. */
  lemma {:induction false} JoinSpaceLength(fs: seq<string>)
    requires fs != []
    ensures |JoinSpace(fs)| == |Concat(fs)| + |fs| - 1
  {
    if |fs| >= 2 {
      JoinSpaceLength(fs[1..]);
      JoinSpaceCons(fs);
    } else {
      assert fs[1..] == [];
    }
  }

  lemma {:induction false} FieldsOfToken(w: string)
    requires IsToken(w)
    ensures Fields(w) == [w]
  {
    WordThenRest(w, "");
    assert w + "" == w;
  }

  /** A token, a space, then anything: the token is the first field and the
      space is dropped. */
  lemma {:induction false} FieldsOfSpaced(w: string, rest: string)
    requires IsToken(w)
    ensures Fields(w + ([' '] + rest)) == [w] + Fields(rest)
  {
    WordThenRest(w, [' '] + rest);
    LeadingSeparator(' ', rest);
  }

  /** Any run of separators in front does not change the fields. */
  lemma {:induction false} LeadingSeparators(sep: string, rest: string)
    requires NoField(sep)
    ensures Fields(sep + rest) == Fields(rest)
  {
    if sep != [] {
      assert sep + rest == [sep[0]] + (sep[1..] + rest);
      LeadingSeparators(sep[1..], rest);
      LeadingSeparator(sep[0], sep[1..] + rest);
    } else {
      assert sep + rest == rest;
    }
  }

  /** A token, a non-empty run of any separators (tabs, several spaces,
      no-break spaces, ...), then anything: the token is the first field
      and the whole run is dropped. */
  lemma {:induction false} FieldsOfSeparated(w: string, sep: string, rest: string)
    requires IsToken(w)
    requires sep != [] && NoField(sep)
    ensures Fields(w + sep + rest) == [w] + Fields(rest)
  {
    assert w + sep + rest == w + (sep + rest);
    assert (sep + rest)[0] == sep[0];
    WordThenRest(w, sep + rest);
    LeadingSeparators(sep, rest);
  }

  /** One step of the join round trip: the first token, a space, then the rest. */
  lemma {:induction false} FieldsOfJoinStep(fs: seq<string>)
    requires |fs| >= 2 && IsToken(fs[0])
    requires Fields(JoinSpace(fs[1..])) == fs[1..]
    ensures Fields(JoinSpace(fs)) == fs
  {
    JoinSpaceCons(fs);
    FieldsOfSpacedJoin(JoinSpace(fs), fs[0], JoinSpace(fs[1..]), fs[1..]);
    HeadTail(fs);
  }

  lemma HeadTail<T>(s: seq<T>)
    requires s != []
    ensures [s[0]] + s[1..] == s
  {
  }

  lemma {:induction false} FieldsOfSpacedJoin(s: string, w: string, rest: string, tail: seq<string>)
    requires IsToken(w) && s == w + ([' '] + rest) && Fields(rest) == tail
    ensures Fields(s) == [w] + tail
  {
    FieldsOfSpaced(w, rest);
  }

  /** Splitting undoes joining with single spaces: every token that is
      non-empty and free of separators comes back, in order. */
  lemma {:induction false} FieldsOfJoin(fs: seq<string>)
    requires AllTokens(fs)
    ensures Fields(JoinSpace(fs)) == fs
  {
    if |fs| == 1 {
      FieldsOfToken(fs[0]);
    } else if |fs| >= 2 {
      FieldsOfJoin(fs[1..]);
      FieldsOfJoinStep(fs);
    }
  }
}
