/** Strings as the memory and governance packages use them: trimming, lower-casing, substring tests,
    the lexical tokenizer, and the byte order that breaks ties when results are sorted. */
module Text {

  predicate IsSpace(c: char) {
    c in " \t\n\r" || c == '\U{000B}' || c == '\U{000C}' || c == '\U{0085}' || c == '\U{00A0}'
  }

  predicate Blank(s: string) {
    forall i :: 0 <= i < |s| ==> IsSpace(s[i])
  }

  function TrimLeft(s: string): string {
    if s != "" && IsSpace(s[0]) then TrimLeft(s[1..]) else s
  }

  function TrimRight(s: string): string {
    if s != "" && IsSpace(s[|s| - 1]) then TrimRight(s[..|s| - 1]) else s
  }

  function Trim(s: string): string {
    TrimRight(TrimLeft(s))
  }

  function LowerChar(c: char): char {
    if 'A' <= c <= 'Z' then c + (32 as char) else c
  }

  function Lower(s: string): (r: string)
    ensures |r| == |s|
  {
    seq(|s|, i requires 0 <= i < |s| => LowerChar(s[i]))
  }

  predicate OccursAt(s: string, part: string, i: nat) {
    i + |part| <= |s| && s[i..i + |part|] == part
  }

  predicate Contains(s: string, part: string) {
    exists i: nat :: i <= |s| && OccursAt(s, part, i)
  }

  // ---------- Tokenizer ----------

  predicate IsWord(w: string) {
    w != "" && forall i :: 0 <= i < |w| ==> !IsSpace(w[i])
  }

  function WordLength(s: string): (n: nat)
    ensures n <= |s|
    ensures forall i :: 0 <= i < n ==> !IsSpace(s[i])
    ensures n < |s| ==> IsSpace(s[n])
  {
    if s == "" || IsSpace(s[0]) then 0 else 1 + WordLength(s[1..])
  }

  /** The maximal runs of non-space characters. */
  function Fields(s: string): (words: seq<string>)
    ensures forall w :: w in words ==> IsWord(w)
    decreases |s|
  {
    if s == "" then []
    else if IsSpace(s[0]) then Fields(s[1..])
    else
      var n := WordLength(s);
      [s[..n]] + Fields(s[n..])
  }

  function SeparatorToSpace(c: char): char {
    if c in ",.:;\n\t/_" then ' ' else c
  }

  function Tokens(text: string): (words: seq<string>)
    ensures forall w :: w in words ==> IsWord(w)
  {
    Fields(Separated(text))
  }

  function Separated(text: string): string {
    var lowered := Lower(text);
    seq(|lowered|, i requires 0 <= i < |lowered| => SeparatorToSpace(lowered[i]))
  }

  lemma {:induction false} FieldCharacters(s: string)
    ensures forall w, c :: w in Fields(s) && c in w ==> c in s
    decreases |s|
  {
    if s == "" {
    } else if IsSpace(s[0]) {
      FieldCharacters(s[1..]);
    } else {
      FieldCharacters(s[WordLength(s)..]);
    }
  }

  /** Tokens are made of the characters of the text. */
  lemma TokenCharacters(text: string)
    ensures forall w, c :: w in Tokens(text) && c in w ==> c in Separated(text)
  {
    FieldCharacters(Separated(text));
  }

  /** A first word of one character is a token. */
  lemma FirstToken(text: string)
    requires |text| > 1 && !IsSpace(Separated(text)[0]) && IsSpace(Separated(text)[1])
    ensures [Separated(text)[0]] in Tokens(text)
  {
    var s := Separated(text);
    var n := WordLength(s);
    assert n == 1;
    assert s[..1] == [s[0]];
    assert Fields(s) == [s[..n]] + Fields(s[n..]);
  }

  /** Trimming leaves a word as it is, so neither the index nor the query drops or rewrites a token. */
  lemma TrimKeepsWords(w: string)
    requires IsWord(w)
    ensures Trim(w) == w
    ensures !Blank(w)
  {
    assert !IsSpace(w[0]);
    assert !IsSpace(w[|w| - 1]);
  }

  // ---------- What the tokens of a text are ----------

  /** A maximal run of non-space characters. */
  predicate WordAt(s: string, i: int, j: int) {
    && 0 <= i < j <= |s| && (forall k :: i <= k < j ==> !IsSpace(s[k]))
    && (i > 0 ==> IsSpace(s[i - 1])) && (j < |s| ==> IsSpace(s[j]))
  }

  ghost predicate HasWord(s: string, w: string) {
    exists i, j :: WordAt(s, i, j) && s[i..j] == w
  }

  lemma {:induction false} WordLengthIs(s: string, n: nat)
    requires n <= |s| && (forall i :: 0 <= i < n ==> !IsSpace(s[i])) && (n < |s| ==> IsSpace(s[n]))
    ensures WordLength(s) == n
  {
  }

  lemma WordAfter(s: string, n: nat, w: string)
    requires n <= |s| && (n < |s| ==> IsSpace(s[n]))
    ensures (exists i, j :: i > n && WordAt(s, i, j) && s[i..j] == w) <==> HasWord(s[n..], w)
  {
    var rest := s[n..];
    if i, j :| i > n && WordAt(s, i, j) && s[i..j] == w {
      assert WordAt(rest, i - n, j - n) && rest[i - n..j - n] == w;
    }
    if i, j :| WordAt(rest, i, j) && rest[i..j] == w {
      assert i > 0;
      assert s[i + n - 1] == rest[i - 1];
      assert WordAt(s, i + n, j + n) && s[i + n..j + n] == w;
    }
  }

  lemma SkipSpace(s: string, w: string)
    requires s != "" && IsSpace(s[0])
    ensures HasWord(s, w) <==> HasWord(s[1..], w)
  {
    if i, j :| WordAt(s, i, j) && s[i..j] == w {
      assert WordAt(s[1..], i - 1, j - 1) && s[1..][i - 1..j - 1] == w;
    }
    if i, j :| WordAt(s[1..], i, j) && s[1..][i..j] == w {
      assert WordAt(s, i + 1, j + 1) && s[i + 1..j + 1] == w;
    }
  }

  lemma FirstWord(s: string, n: nat, w: string)
    requires 0 < n <= |s| && (forall i :: 0 <= i < n ==> !IsSpace(s[i])) && (n < |s| ==> IsSpace(s[n]))
    ensures HasWord(s, w) <==> w == s[..n] || HasWord(s[n..], w)
  {
    WordAfter(s, n, w);
    assert WordAt(s, 0, n) && s[0..n] == s[..n];
    if i, j :| WordAt(s, i, j) && s[i..j] == w && i <= n {
      assert i == 0 && j == n;
    }
  }

  /** The words of a text are exactly its maximal runs of non-space characters. */
  lemma {:induction false} FieldIff(s: string, w: string)
    ensures w in Fields(s) <==> HasWord(s, w)
    decreases |s|
  {
    if s == "" {
    } else if IsSpace(s[0]) {
      FieldIff(s[1..], w);
      SkipSpace(s, w);
    } else {
      FieldIff(s[WordLength(s)..], w);
      FirstWord(s, WordLength(s), w);
    }
  }

  /** A space separates: the words of a text that goes on with one are those of both parts. */
  lemma {:induction false} FieldsJoin(a: string, b: string)
    requires b != "" && IsSpace(b[0])
    ensures Fields(a + b) == Fields(a) + Fields(b)
    decreases |a|
  {
    if a == "" {
      assert a + b == b;
    } else if IsSpace(a[0]) {
      assert (a + b)[1..] == a[1..] + b;
      FieldsJoin(a[1..], b);
    } else {
      var n := WordLength(a);
      WordLengthIs(a + b, n);
      assert (a + b)[..n] == a[..n] && (a + b)[n..] == a[n..] + b;
      FieldsJoin(a[n..], b);
      FieldsRest(a);
      FieldsRest(a + b);
    }
  }

  lemma FieldsRest(s: string)
    requires s != "" && !IsSpace(s[0])
    ensures Fields(s) == [s[..WordLength(s)]] + Fields(s[WordLength(s)..])
  {
  }

  /** Each of the separators ends a token, as a space does. */
  lemma TokensJoin(a: string, c: char, b: string)
    requires c in " \n\t\r,.:;/_"
    ensures Tokens(a + [c] + b) == Tokens(a) + Tokens(b)
  {
    var space := [SeparatorToSpace(LowerChar(c))];
    assert Separated(a + [c] + b) == Separated(a) + (space + Separated(b));
    FieldsJoin(Separated(a), space + Separated(b));
    assert (space + Separated(b))[1..] == Separated(b);
  }

  /** The two characters are the same letter, or the same. */
  predicate SameLetter(a: char, b: char) {
    a == b || ('A' <= a <= 'Z' && b as int == a as int + 32) || ('A' <= b <= 'Z' && a as int == b as int + 32)
  }

  /** Case does not matter: neither to the tokens of a text nor to its lower-cased form. */
  lemma CaseIgnored(a: string, b: string)
    requires |a| == |b| && forall i :: 0 <= i < |a| ==> SameLetter(a[i], b[i])
    ensures Lower(a) == Lower(b) && Tokens(a) == Tokens(b)
  {
    forall i | 0 <= i < |a| ensures Lower(a)[i] == Lower(b)[i] {
      assert SameLetter(a[i], b[i]);
    }
  }

  /** Trimming takes the spaces from both ends and nothing else. */
  lemma TrimStrips(s: string) returns (i: nat, j: nat)
    ensures i <= j <= |s| && Trim(s) == s[i..j] && Blank(s[..i]) && Blank(s[j..])
    ensures i < j ==> !IsSpace(s[i]) && !IsSpace(s[j - 1])
  {
    i := LeftStrips(s);
    var left := TrimLeft(s);
    var k := RightStrips(left);
    j := i + k;
    assert s[j..] == left[k..] && s[i..j] == left[..k];
    if i < j { assert s[i] == left[0] && s[j - 1] == left[k - 1]; }
  }

  lemma {:induction false} LeftStrips(s: string) returns (i: nat)
    ensures i <= |s| && TrimLeft(s) == s[i..] && Blank(s[..i]) && (i < |s| ==> !IsSpace(s[i]))
  {
    if s != "" && IsSpace(s[0]) {
      i := LeftStrips(s[1..]);
      assert s[..i + 1] == [s[0]] + s[1..][..i];
      i := i + 1;
    } else {
      i := 0;
    }
  }

  lemma BlankNext(s: string, c: char)
    requires Blank(s) && IsSpace(c)
    ensures Blank(s + [c])
  {
  }

  lemma {:induction false} RightStrips(s: string) returns (k: nat)
    ensures k <= |s| && TrimRight(s) == s[..k] && Blank(s[k..]) && (k > 0 ==> !IsSpace(s[k - 1]))
  {
    if s != "" && IsSpace(s[|s| - 1]) {
      var rest := s[..|s| - 1];
      k := RightStrips(rest);
      assert rest[..k] == s[..k];
      BlankNext(rest[k..], s[|s| - 1]);
      assert s[k..] == rest[k..] + [s[|s| - 1]];
    } else {
      k := |s|;
    }
  }

  // ---------- Order ----------

  predicate Less(a: string, b: string) {
    if a == "" then b != ""
    else if b == "" then false
    else a[0] < b[0] || (a[0] == b[0] && Less(a[1..], b[1..]))
  }

  lemma {:induction false} LessTotal(a: string, b: string)
    ensures Less(a, b) || Less(b, a) || a == b
    ensures !(Less(a, b) && Less(b, a))
    ensures !Less(a, a)
  {
    if a != "" {
      if b != "" && a[0] == b[0] {
        LessTotal(a[1..], b[1..]);
        assert a == [a[0]] + a[1..] && b == [b[0]] + b[1..];
      }
      LessTotal(a[1..], a[1..]);
    }
  }

  lemma {:induction false} LessTransitive(a: string, b: string, c: string)
    requires Less(a, b) && Less(b, c)
    ensures Less(a, c)
  {
    if a != "" && a[0] == b[0] == c[0] {
      LessTransitive(a[1..], b[1..], c[1..]);
    }
  }
}
