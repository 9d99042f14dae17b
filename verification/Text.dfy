/** Options, white space, case folding and the split/join pair that the other
    modules share. Strings are sequences of characters. */
module Text {

  datatype Option<+T> = None | Some(value: T) {
    function GetOr(default: T): T { if Some? then value else default }
  }

  // ---------- White space, as strings.TrimSpace sees it ----------

  predicate IsSpace(c: char) {
    || c == ' ' || '\t' <= c <= '\r'
    || c == '\U{0085}' || c == '\U{00A0}' || c == '\U{1680}'
    || '\U{2000}' <= c <= '\U{200A}'
    || c == '\U{2028}' || c == '\U{2029}' || c == '\U{202F}'
    || c == '\U{205F}' || c == '\U{3000}'
  }

  // Where the text starts, not before i, and where it ends, not after n.
  function Start(s: string, i: nat): (r: nat)
    requires i <= |s|
    ensures i <= r <= |s|
    ensures r < |s| ==> !IsSpace(s[r])
    ensures forall j :: i <= j < r ==> IsSpace(s[j])
    decreases |s| - i
  {
    if i < |s| && IsSpace(s[i]) then Start(s, i + 1) else i
  }

  function End(s: string, n: nat): (r: nat)
    requires n <= |s|
    ensures r <= n
    ensures r > 0 ==> !IsSpace(s[r - 1])
    ensures forall j :: r <= j < n ==> IsSpace(s[j])
  {
    if n > 0 && IsSpace(s[n - 1]) then End(s, n - 1) else n
  }

  function TrimLeft(s: string): string { s[Start(s, 0)..] }

  function TrimRight(s: string): string { s[..End(s, |s|)] }

  function TrimSpace(s: string): string { TrimRight(TrimLeft(s)) }

  predicate Blank(s: string) { forall i :: 0 <= i < |s| ==> IsSpace(s[i]) }

  predicate Trimmed(s: string) {
    s != "" ==> !IsSpace(s[0]) && !IsSpace(s[|s| - 1])
  }

  lemma TrimSpaceTrims(s: string)
    ensures Trimmed(TrimSpace(s))
    ensures Trimmed(s) ==> TrimSpace(s) == s
    ensures forall c :: c in TrimSpace(s) ==> c in s
    ensures TrimSpace(s) == "" <==> Blank(s)
  {
    var i := Start(s, 0);
    var t := TrimLeft(s);
    var n := End(t, |t|);
    assert forall j :: 0 <= j < |t| ==> t[j] == s[i + j];
    assert t != "" ==> !IsSpace(t[0]);
    assert n == 0 ==> t == "";
  }

  lemma {:induction false} StartAppend(s: string, c: char, i: nat)
    requires !IsSpace(c) && i <= |s|
    ensures Start(s + [c], i) == Start(s, i)
    decreases |s| - i
  {
    assert i < |s| ==> (s + [c])[i] == s[i];
    if i < |s| && IsSpace(s[i]) {
      StartAppend(s, c, i + 1);
    }
  }

  // A character that is no space keeps the space before it.
  lemma TrimAppend(s: string, c: char)
    requires !IsSpace(c)
    ensures TrimSpace(s + [c]) == TrimLeft(s) + [c]
    ensures TrimSpace(TrimLeft(s)) == TrimSpace(s)
  {
    StartAppend(s, c, 0);
    var t := TrimLeft(s);
    assert TrimLeft(s + [c]) == t + [c];
    assert (t + [c])[|t|] == c;
    assert End(t + [c], |t| + 1) == |t| + 1;
    assert (t + [c])[..|t| + 1] == t + [c];
    assert Start(t, 0) == 0 && t[0..] == t;
  }

  lemma TrimOneSpace(s: string, c: char)
    requires Trimmed(s) && IsSpace(c)
    ensures TrimSpace(s + [c]) == s
  {
    var t := s + [c];
    if s == "" {
      TrimSpaceTrims(t);
    } else {
      assert t[0] == s[0] && t[|s| - 1] == s[|s| - 1];
      assert Start(t, 0) == 0;
      assert t[0..] == t;
      assert End(t, |t|) == End(t, |s|) == |s|;
    }
  }

  lemma {:induction false} StartAfterBlank(a: string, s: string, i: nat)
    requires Blank(a) && i <= |a| && (s == "" || !IsSpace(s[0]))
    ensures Start(a + s, i) == |a|
    decreases |a| - i
  {
    if i < |a| {
      assert (a + s)[i] == a[i];
      StartAfterBlank(a, s, i + 1);
    } else if s != "" {
      assert (a + s)[|a|] == s[0];
    }
  }

  lemma {:induction false} EndBeforeBlank(s: string, b: string, n: nat)
    requires Blank(b) && |s| <= n <= |s| + |b| && (s == "" || !IsSpace(s[|s| - 1]))
    ensures End(s + b, n) == |s|
  {
    if n > |s| {
      assert (s + b)[n - 1] == b[n - 1 - |s|];
      EndBeforeBlank(s, b, n - 1);
    } else if s != "" {
      assert (s + b)[|s| - 1] == s[|s| - 1];
    }
  }

  // White space on both sides of a trimmed text is trimmed away.
  lemma TrimPadding(a: string, s: string, b: string)
    requires Blank(a) && Blank(b) && Trimmed(s) && s != ""
    ensures TrimSpace(a + s + b) == s
  {
    assert a + s + b == a + (s + b);
    StartAfterBlank(a, s + b, 0);
    assert TrimLeft(a + s + b) == s + b;
    EndBeforeBlank(s, b, |s + b|);
  }

  // ---------- Case, ASCII only ----------

  function LowerChar(c: char): char {
    if 'A' <= c <= 'Z' then (c as int + 32) as char else c
  }

  function Lower(s: string): (r: string)
    ensures |r| == |s|
    ensures forall i :: 0 <= i < |s| ==> r[i] == LowerChar(s[i])
  {
    seq(|s|, i requires 0 <= i < |s| => LowerChar(s[i]))
  }

  // ---------- Suffixes and substrings ----------

  predicate HasSuffix<T(==)>(s: seq<T>, t: seq<T>) {
    |t| <= |s| && s[|s| - |t|..] == t
  }

  predicate OccursAt(s: string, t: string, i: int) {
    0 <= i <= |s| - |t| && s[i..i + |t|] == t
  }

  predicate HasSubstring(s: string, t: string) {
    exists i: int | 0 <= i <= |s| :: OccursAt(s, t, i)
  }

  ghost predicate Subsequence<T>(a: seq<T>, b: seq<T>) {
    a == [] || (b != [] &&
      (|| (a[|a| - 1] == b[|b| - 1] && Subsequence(a[..|a| - 1], b[..|b| - 1]))
       || Subsequence(a, b[..|b| - 1])))
  }

  function TrimSuffix(s: string, t: string): string {
    if HasSuffix(s, t) then s[..|s| - |t|] else s
  }

  // ---------- Splitting at a separator and joining again ----------

  // Putting one more character in front of an already split text.
  function Push(c: char, sep: char, l: seq<string>): (r: seq<string>)
    requires l != []
    ensures r != []
  {
    if c == sep then [""] + l else [[c] + l[0]] + l[1..]
  }

  function Split(s: string, sep: char): (r: seq<string>)
    ensures r != []
  {
    if s == "" then [""] else Push(s[0], sep, Split(s[1..], sep))
  }

  function Join(l: seq<string>, sep: char): string {
    if l == [] then ""
    else if |l| == 1 then l[0]
    else l[0] + [sep] + Join(l[1..], sep)
  }

  lemma {:induction false} SplitPiecesFree(s: string, sep: char)
    ensures forall p :: p in Split(s, sep) ==> sep !in p
    ensures forall p, c :: p in Split(s, sep) && c in p ==> c in s
  {
    if s != "" {
      SplitPiecesFree(s[1..], sep);
    }
  }

  lemma JoinPush(c: char, sep: char, l: seq<string>)
    requires l != []
    ensures Join(Push(c, sep, l), sep) == [c] + Join(l, sep)
  {
    if c == sep {
      assert ([""] + l)[1..] == l;
    } else {
      assert ([[c] + l[0]] + l[1..])[1..] == l[1..];
    }
  }

  lemma {:induction false} JoinSplit(s: string, sep: char)
    ensures Join(Split(s, sep), sep) == s
  {
    if s != "" {
      JoinSplit(s[1..], sep);
      JoinPush(s[0], sep, Split(s[1..], sep));
    }
  }

  lemma PushConcat(c: char, sep: char, x: seq<string>, y: seq<string>)
    requires x != []
    ensures Push(c, sep, x + y) == Push(c, sep, x) + y
  {
    assert (x + y)[0] == x[0] && (x + y)[1..] == x[1..] + y;
  }

  // Splitting distributes over a separator, wherever the separator stands.
  lemma {:induction false} SplitConcat(a: string, b: string, sep: char)
    ensures Split(a + [sep] + b, sep) == Split(a, sep) + Split(b, sep)
  {
    var s := a + [sep] + b;
    if a == "" {
      assert s[1..] == b;
    } else {
      SplitConcat(a[1..], b, sep);
      assert s[1..] == a[1..] + [sep] + b && s[0] == a[0];
      PushConcat(s[0], sep, Split(a[1..], sep), Split(b, sep));
    }
  }

  lemma SplitAtom(a: string, sep: char)
    requires sep !in a
    ensures Split(a, sep) == [a]
  {
    if a != "" {
      SplitAtom(a[1..], sep);
      assert [a[0]] + a[1..] == a;
    }
  }

  lemma {:induction false} SplitJoin(l: seq<string>, sep: char)
    requires l != [] && forall p :: p in l ==> sep !in p
    ensures Split(Join(l, sep), sep) == l
  {
    SplitAtom(l[0], sep);
    if |l| > 1 {
      SplitJoin(l[1..], sep);
      SplitConcat(l[0], Join(l[1..], sep), sep);
    }
  }

  lemma {:induction false} JoinConcat(a: seq<string>, b: seq<string>, sep: char)
    requires a != [] && b != []
    ensures Join(a + b, sep) == Join(a, sep) + [sep] + Join(b, sep)
  {
    if |a| == 1 {
      assert (a + b)[1..] == b;
    } else {
      JoinConcat(a[1..], b, sep);
      assert (a + b)[1..] == a[1..] + b;
    }
  }
}
