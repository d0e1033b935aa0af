/** String operations of the JavaScript and Python runtimes that the gallery,
    the build config, the migration script and the demos rely on. */
module Text {

  datatype Option<T> = None | Some(value: T)

  /** `sub` occurs in `s` starting at index `i`. */
  predicate OccursAt(s: string, sub: string, i: nat)
  {
    i + |sub| <= |s| && s[i..i + |sub|] == sub
  }

  /** JavaScript `String.prototype.indexOf(sub)`: the first index at which
      `sub` occurs, searching from `from`; `None` stands for -1. */
  function IndexOfFrom(s: string, sub: string, from: nat): (r: Option<nat>)
    requires from <= |s|
    ensures r.Some? ==> from <= r.value && OccursAt(s, sub, r.value)
    ensures r.Some? ==> forall j :: from <= j < r.value ==> !OccursAt(s, sub, j)
    ensures r.None? ==> forall j :: from <= j <= |s| ==> !OccursAt(s, sub, j)
    decreases |s| - from
  {
    if OccursAt(s, sub, from) then Some(from)
    else if from == |s| then None
    else IndexOfFrom(s, sub, from + 1)
  }

  function IndexOf(s: string, sub: string): (r: Option<nat>)
    ensures r.Some? ==> OccursAt(s, sub, r.value)
    ensures r.Some? ==> forall j :: 0 <= j < r.value ==> !OccursAt(s, sub, j)
    ensures r.None? <==> forall j :: 0 <= j <= |s| ==> !OccursAt(s, sub, j)
  {
    IndexOfFrom(s, sub, 0)
  }

  /** The first occurrence determines `indexOf`. */
  lemma IndexOfIs(s: string, sub: string, i: nat)
    requires OccursAt(s, sub, i) && forall j :: 0 <= j < i ==> !OccursAt(s, sub, j)
    ensures IndexOf(s, sub) == Some(i)
  {
    assert IndexOf(s, sub).Some?;
  }

  /** JavaScript `String.prototype.includes(sub)`. */
  predicate Contains(s: string, sub: string)
  {
    IndexOf(s, sub).Some?
  }

  lemma ContainsIff(s: string, sub: string)
    ensures Contains(s, sub) <==> exists i :: 0 <= i <= |s| && OccursAt(s, sub, i)
  {
    if !Contains(s, sub) {
      assert forall j :: 0 <= j <= |s| ==> !OccursAt(s, sub, j);
    }
  }

  /** Every string contains the empty string. */
  lemma ContainsEmpty(s: string)
    ensures Contains(s, "")
  {
    assert OccursAt(s, "", 0);
  }

  /** JavaScript `s.replace(pattern, replacement)` with a string pattern:
      only the first occurrence is replaced. */
  function ReplaceFirst(s: string, pattern: string, replacement: string): (r: string)
    ensures IndexOf(s, pattern).None? ==> r == s
    ensures IndexOf(s, pattern).Some? ==>
      var i := IndexOf(s, pattern).value;
      |r| == |s| - |pattern| + |replacement| &&
      r[..i] == s[..i] && r[i..i + |replacement|] == replacement &&
      r[i + |replacement|..] == s[i + |pattern|..]
  {
    match IndexOf(s, pattern)
    case None => s
    case Some(i) => s[..i] + replacement + s[i + |pattern|..]
  }

  /** Replacing a marker by the marker followed by `text` inserts `text`
      right after the first occurrence of the marker and changes nothing else. */
  lemma InsertAfterFirst(s: string, marker: string, text: string)
    requires IndexOf(s, marker).Some?
    ensures var i := IndexOf(s, marker).value;
      ReplaceFirst(s, marker, marker + text) == s[..i + |marker|] + text + s[i + |marker|..]
  {
    var i := IndexOf(s, marker).value;
    var head, tail := s[..i], s[i + |marker|..];
    assert s[..i + |marker|] == head + marker;
    assert s[i + |marker|..] == tail;
    assert ReplaceFirst(s, marker, marker + text) == head + (marker + text) + tail;
    ConcatAssoc(head, marker, text);
  }

  /** Replacing a marker by `text` followed by the marker inserts `text`
      right before the first occurrence of the marker and changes nothing else. */
  lemma InsertBeforeFirst(s: string, marker: string, text: string)
    requires IndexOf(s, marker).Some?
    ensures var i := IndexOf(s, marker).value;
      ReplaceFirst(s, marker, text + marker) == s[..i] + text + s[i..]
  {
    var i := IndexOf(s, marker).value;
    var head, tail := s[..i], s[i + |marker|..];
    assert s[i..] == marker + tail;
    assert ReplaceFirst(s, marker, text + marker) == head + (text + marker) + tail;
    ConcatAssoc(head, text, marker);
    ConcatAssoc(head + text, marker, tail);
  }

  function LowerChar(c: char): (r: char)
    ensures !('A' <= r <= 'Z')
    ensures !('A' <= c <= 'Z') ==> r == c
  {
    if 'A' <= c <= 'Z' then (c as int - 'A' as int + 'a' as int) as char else c
  }

  function UpperChar(c: char): (r: char)
    ensures !('a' <= r <= 'z')
    ensures !('a' <= c <= 'z') ==> r == c
  {
    if 'a' <= c <= 'z' then (c as int - 'a' as int + 'A' as int) as char else c
  }

  predicate IsLetter(c: char)
  {
    'A' <= c <= 'Z' || 'a' <= c <= 'z'
  }

  /** JavaScript `toLowerCase()`, restricted to the ASCII letters. */
  function ToLower(s: string): (r: string)
    ensures |r| == |s|
    ensures forall i :: 0 <= i < |s| ==> r[i] == LowerChar(s[i])
  {
    seq(|s|, i requires 0 <= i < |s| => LowerChar(s[i]))
  }

  lemma ToLowerIdempotent(s: string)
    ensures ToLower(ToLower(s)) == ToLower(s)
  {
  }

  /** `s` with every occurrence of `from` replaced by `to` (Python `str.replace`
      with one-character arguments). */
  function ReplaceChar(s: string, from: char, to: char): (r: string)
    ensures |r| == |s|
    ensures forall i :: 0 <= i < |s| ==> r[i] == (if s[i] == from then to else s[i])
  {
    seq(|s|, i requires 0 <= i < |s| => if s[i] == from then to else s[i])
  }

  /** The index of the first `c` in `s`. */
  function IndexOfChar(s: string, c: char): (i: nat)
    requires c in s
    ensures i < |s| && s[i] == c && c !in s[..i]
  {
    if s[0] == c then 0 else
      assert c in s[1..];
      1 + IndexOfChar(s[1..], c)
  }

  /** JavaScript `s.split(sep)` for a one-character separator: the pieces
      between the separators, possibly empty, and always at least one. */
  function Split(s: string, sep: char): (parts: seq<string>)
    ensures |parts| >= 1
    ensures forall k :: 0 <= k < |parts| ==> sep !in parts[k]
    decreases |s|
  {
    if sep !in s then [s]
    else
      var i := IndexOfChar(s, sep);
      [s[..i]] + Split(s[i + 1..], sep)
  }

  /** JavaScript `parts.join(sep)`. */
  function Join(parts: seq<string>, sep: char): string
  {
    if |parts| == 0 then ""
    else if |parts| == 1 then parts[0]
    else parts[0] + [sep] + Join(parts[1..], sep)
  }

  /** Splitting and joining again gives back the string. */
  lemma {:induction false} JoinSplit(s: string, sep: char)
    ensures Join(Split(s, sep), sep) == s
    decreases |s|
  {
    if sep in s {
      var i := IndexOfChar(s, sep);
      var rest := s[i + 1..];
      JoinSplit(rest, sep);
      assert Split(s, sep) == [s[..i]] + Split(rest, sep);
      JoinCons(s[..i], Split(rest, sep), sep);
      assert s == s[..i] + [sep] + rest;
    }
  }

  lemma JoinCons(head: string, parts: seq<string>, sep: char)
    requires |parts| >= 1
    ensures Join([head] + parts, sep) == head + [sep] + Join(parts, sep)
  {
    assert ([head] + parts)[1..] == parts;
  }

  /** Splitting at the first separator, found at `i`. */
  lemma SplitAt(s: string, sep: char, i: nat)
    requires i < |s| && s[i] == sep && sep !in s[..i]
    ensures Split(s, sep) == [s[..i]] + Split(s[i + 1..], sep)
  {
    var j := IndexOfChar(s, sep);
    assert j == i;
  }

  /** A separator splits the string into the pieces of each side. */
  lemma {:induction false} SplitAround(a: string, b: string, sep: char)
    ensures Split(a + [sep] + b, sep) == Split(a, sep) + Split(b, sep)
    decreases |a|
  {
    if sep !in a {
      SplitAroundFirst(a, b, sep);
    } else {
      var i := IndexOfChar(a, sep);
      var rest := a[i + 1..];
      SplitBeforeFirst(a, b, sep, i);
      SplitAround(rest, b, sep);
      SplitAt(a, sep, i);
      ConcatAssoc([a[..i]], Split(rest, sep), Split(b, sep));
    }
  }

  lemma ConcatAssoc<T>(x: seq<T>, p: seq<T>, q: seq<T>)
    ensures x + (p + q) == (x + p) + q
  {
  }

  lemma SplitAroundFirst(a: string, b: string, sep: char)
    requires sep !in a
    ensures Split(a + [sep] + b, sep) == [a] + Split(b, sep)
  {
    var s := a + [sep] + b;
    assert s[..|a|] == a && s[|a|] == sep && s[|a| + 1..] == b;
    SplitAt(s, sep, |a|);
  }

  lemma SplitBeforeFirst(a: string, b: string, sep: char, i: nat)
    requires sep in a && i == IndexOfChar(a, sep)
    ensures Split(a + [sep] + b, sep) == [a[..i]] + Split(a[i + 1..] + [sep] + b, sep)
  {
    var s := a + [sep] + b;
    assert s[..i] == a[..i] && s[i] == sep && s[i + 1..] == a[i + 1..] + [sep] + b;
    SplitAt(s, sep, i);
  }

  /** `r` is `s` with some elements left out, the others in their order. */
  predicate IsSublist<T(==)>(r: seq<T>, s: seq<T>)
  {
    if |r| == 0 then true
    else if |s| == 0 then false
    else if r[0] == s[0] then IsSublist(r[1..], s[1..])
    else IsSublist(r, s[1..])
  }

  lemma {:induction false} SublistOfTail<T>(r: seq<T>, s: seq<T>)
    requires |s| > 0 && IsSublist(r, s[1..])
    ensures IsSublist(r, s)
    decreases |s|, 0
  {
    if |r| > 0 && r[0] == s[0] {
      DropHead(r, s[1..]);
    }
  }

  lemma {:induction false} DropHead<T>(r: seq<T>, t: seq<T>)
    requires |r| > 0 && IsSublist(r, t)
    ensures IsSublist(r[1..], t)
    decreases |t|, 1
  {
    if r[0] == t[0] {
      SublistOfTail(r[1..], t);
    } else {
      DropHead(r, t[1..]);
      SublistOfTail(r[1..], t);
    }
  }
}
