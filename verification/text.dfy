/**
 * Strings as `seq<char>`: the ASCII case mapping behind Ruby's `downcase`,
 * `upcase` and `capitalize`, substring containment (an unanchored regular
 * expression without metacharacters), and the newline join that every
 * renderer uses to assemble its output, with its inverse.
 */
module Text {
  import opened Seqs

  predicate IsUpperChar(c: char) {
    'A' <= c <= 'Z'
  }

  predicate IsLowerChar(c: char) {
    'a' <= c <= 'z'
  }

  /** The characters of the class `[a-zA-Z0-9_]`. */
  predicate IsWordChar(c: char) {
    IsUpperChar(c) || IsLowerChar(c) || ('0' <= c <= '9') || c == '_'
  }

  function LowerChar(c: char): (r: char)
    ensures !IsUpperChar(r)
    ensures IsUpperChar(c) <==> r != c
  {
    if IsUpperChar(c) then (c as int + 32) as char else c
  }

  function UpperChar(c: char): (r: char)
    ensures !IsLowerChar(r)
    ensures IsLowerChar(c) <==> r != c
  {
    if IsLowerChar(c) then (c as int - 32) as char else c
  }

  /** No upper-case ASCII letter occurs in `s`. */
  predicate IsLowerCase(s: string) {
    forall i :: 0 <= i < |s| ==> !IsUpperChar(s[i])
  }

  /** Ruby's `downcase`, restricted to ASCII. */
  function Lower(s: string): (r: string)
    ensures |r| == |s|
    ensures forall i :: 0 <= i < |s| ==> r[i] == LowerChar(s[i])
    ensures IsLowerCase(r)
  {
    seq(|s|, i requires 0 <= i < |s| => LowerChar(s[i]))
  }

  /** Ruby's `upcase`, restricted to ASCII. */
  function Upper(s: string): (r: string)
    ensures |r| == |s|
    ensures forall i :: 0 <= i < |s| ==> r[i] == UpperChar(s[i])
  {
    seq(|s|, i requires 0 <= i < |s| => UpperChar(s[i]))
  }

  /** Ruby's `capitalize`: first character upper-cased, the rest lower-cased. */
  function Capitalize(s: string): (r: string)
    ensures |r| == |s|
    ensures |s| > 0 ==> r[0] == UpperChar(s[0]) && r[1..] == Lower(s[1..])
  {
    if |s| == 0 then [] else [UpperChar(s[0])] + Lower(s[1..])
  }

  lemma LowerOfLowerCase(s: string)
    requires IsLowerCase(s)
    ensures Lower(s) == s
  {
  }

  lemma LowerIdempotent(s: string)
    ensures Lower(Lower(s)) == Lower(s)
  {
    LowerOfLowerCase(Lower(s));
  }

  /** Capitalising does not change what a case-insensitive match sees. */
  lemma LowerOfCapitalize(s: string)
    ensures Lower(Capitalize(s)) == Lower(s)
  {
  }

  lemma CapitalizeIdempotent(s: string)
    ensures Capitalize(Capitalize(s)) == Capitalize(s)
  {
    if |s| > 0 {
      LowerIdempotent(s[1..]);
    }
  }

  /** `p` occurs in `s` starting at index `i`. */
  predicate OccursAt(s: string, p: string, i: int) {
    0 <= i && i + |p| <= |s| && s[i..i + |p|] == p
  }

  /** `p` is a substring of `s`: what the regular expression `/p/` tests. */
  predicate Contains(s: string, p: string) {
    exists i | 0 <= i <= |s| :: OccursAt(s, p, i)
  }

  lemma ContainsSelf(s: string)
    ensures Contains(s, s)
  {
    assert OccursAt(s, s, 0);
  }

  /** A pattern holding a character that `s` lacks does not occur in `s`. */
  lemma NotContainsByChar(s: string, p: string, c: char)
    requires c in p && c !in s
    ensures !Contains(s, p)
  {
  }

  /** Ruby's `start_with?`. */
  predicate StartsWith(s: string, prefix: string) {
    |prefix| <= |s| && s[..|prefix|] == prefix
  }

  /** Ruby's `end_with?`. */
  predicate EndsWith(s: string, suffix: string) {
    |suffix| <= |s| && s[|s| - |suffix|..] == suffix
  }

  lemma StartsWithAppend(a: string, b: string)
    ensures StartsWith(a + b, a)
  {
    assert (a + b)[..|a|] == a;
  }

  lemma EndsWithAppend(a: string, b: string)
    ensures EndsWith(a + b, b)
  {
    assert (a + b)[|a|..] == b;
  }

  predicate NoNewline(s: string) {
    '\n' !in s
  }

  predicate AllNoNewline(lines: seq<string>) {
    forall k :: 0 <= k < |lines| ==> NoNewline(lines[k])
  }

  /** Ruby's `join("\n")`; the empty list joins to the empty string. */
  function Join(lines: seq<string>): (r: string)
    ensures |lines| == 1 ==> r == lines[0]
  {
    if |lines| == 0 then ""
    else if |lines| == 1 then lines[0]
    else lines[0] + "\n" + Join(lines[1..])
  }

  /** Ruby's `join(sep)` for an arbitrary separator. */
  function JoinWith(xs: seq<string>, sep: string): (r: string)
    ensures |xs| == 0 ==> r == ""
    ensures |xs| == 1 ==> r == xs[0]
  {
    if |xs| == 0 then ""
    else if |xs| == 1 then xs[0]
    else xs[0] + sep + JoinWith(xs[1..], sep)
  }

  lemma {:induction false} JoinWithNoNewline(xs: seq<string>, sep: string)
    requires AllNoNewline(xs) && NoNewline(sep)
    ensures NoNewline(JoinWith(xs, sep))
  {
    if |xs| > 1 {
      JoinWithNoNewline(xs[1..], sep);
    }
  }

  /** The index of the first newline of `s`. */
  function FirstNewline(s: string): (i: nat)
    requires '\n' in s
    ensures i < |s| && s[i] == '\n' && NoNewline(s[..i])
  {
    if s[0] == '\n' then 0 else 1 + FirstNewline(s[1..])
  }

  /** The lines of a text: the pieces between its newlines. */
  function LinesOf(s: string): (r: seq<string>)
    ensures |r| > 0
    ensures forall k :: 0 <= k < |r| ==> NoNewline(r[k])
    decreases |s|
  {
    if NoNewline(s) then [s]
    else
      var i := FirstNewline(s);
      [s[..i]] + LinesOf(s[i + 1..])
  }

  lemma {:induction false} JoinAppend(a: seq<string>, b: seq<string>)
    requires |a| > 0 && |b| > 0
    ensures Join(a + b) == Join(a) + "\n" + Join(b)
  {
    if |a| == 1 {
      assert (a + b)[1..] == b;
    } else {
      assert (a + b)[1..] == a[1..] + b;
      JoinAppend(a[1..], b);
    }
  }

  /** A join of two non-empty runs of lines opens with the first run and a newline. */
  lemma JoinOpensWith(a: seq<string>, b: seq<string>)
    requires |a| > 0 && |b| > 0
    ensures StartsWith(Join(a + b), Join(a) + "\n")
  {
    JoinAppend(a, b);
    StartsWithAppend(Join(a) + "\n", Join(b));
  }

  /** Splitting a joined text at its newlines gives back the lines joined. */
  lemma {:induction false} LinesOfJoin(lines: seq<string>)
    requires |lines| > 0
    requires AllNoNewline(lines)
    ensures LinesOf(Join(lines)) == lines
  {
    if |lines| > 1 {
      var s := Join(lines);
      var head := lines[0];
      var rest := Join(lines[1..]);
      assert s == head + ['\n'] + rest;
      AppendAssoc(head, ['\n'], rest);
      assert NoNewline(head);
      FirstNewlineOf(head, rest);
      SplitAround(head, '\n', rest);
      assert LinesOf(s) == [head] + LinesOf(rest);
      LinesOfJoin(lines[1..]);
      HeadTail(lines);
    }
  }

  lemma {:induction false} FirstNewlineOf(head: string, tail: string)
    requires NoNewline(head)
    ensures '\n' in head + "\n" + tail
    ensures FirstNewline(head + "\n" + tail) == |head|
    decreases |head|
  {
    var s := head + "\n" + tail;
    assert s[|head|] == '\n';
    if |head| > 0 {
      assert s[1..] == head[1..] + "\n" + tail;
      FirstNewlineOf(head[1..], tail);
    }
  }

  /** Each group of lines joined on its own. */
  function JoinEach(xss: seq<seq<string>>): (r: seq<string>)
    ensures |r| == |xss|
    ensures forall i :: 0 <= i < |xss| ==> r[i] == Join(xss[i])
  {
    seq(|xss|, i requires 0 <= i < |xss| => Join(xss[i]))
  }

  /**
   * Joining blocks that were each joined first is joining all their lines:
   * a block that is itself several lines reads as those lines.
   */
  lemma {:induction false} JoinOfJoins(xss: seq<seq<string>>)
    requires |xss| > 0
    requires forall i :: 0 <= i < |xss| ==> |xss[i]| > 0
    ensures Join(JoinEach(xss)) == Join(Flatten(xss))
  {
    if |xss| == 1 {
      FlattenSingle(xss[0]);
      assert xss == [xss[0]];
    } else {
      var rest := xss[1..];
      assert JoinEach(xss) == [Join(xss[0])] + JoinEach(rest);
      JoinAppend([Join(xss[0])], JoinEach(rest));
      JoinOfJoins(rest);
      assert Flatten(xss) == xss[0] + Flatten(rest);
      assert Flatten(rest) == rest[0] + Flatten(rest[1..]);
      JoinAppend(xss[0], Flatten(rest));
    }
  }

  lemma {:induction false} FlattenNoNewline(xss: seq<seq<string>>)
    requires forall i :: 0 <= i < |xss| ==> AllNoNewline(xss[i])
    ensures AllNoNewline(Flatten(xss))
  {
    if |xss| > 0 {
      FlattenNoNewline(xss[1..]);
    }
  }

  lemma NoNewlineLower(s: string)
    requires NoNewline(s)
    ensures NoNewline(Lower(s))
  {
  }

  lemma NoNewlineUpper(s: string)
    requires NoNewline(s)
    ensures NoNewline(Upper(s))
  {
  }

  lemma NoNewlineCapitalize(s: string)
    requires NoNewline(s)
    ensures NoNewline(Capitalize(s))
  {
  }

  lemma AllNoNewlineAppend(a: seq<string>, b: seq<string>)
    requires AllNoNewline(a) && AllNoNewline(b)
    ensures AllNoNewline(a + b)
  {
  }

  /**
   * Between a non-empty prefix and any suffix, a run of blocks joined one by
   * one reads as the lines of all the blocks.
   */
  lemma JoinSplice(a: seq<string>, xss: seq<seq<string>>, c: seq<string>)
    requires |a| > 0
    requires forall i :: 0 <= i < |xss| ==> |xss[i]| > 0
    ensures Join(a + JoinEach(xss) + c) == Join(a + Flatten(xss) + c)
  {
    var J := JoinEach(xss);
    var F := Flatten(xss);
    if |xss| == 0 {
      assert |J| == 0 && F == [];
      assert J == F;
    } else {
      JoinOfJoins(xss);
      assert F == xss[0] + Flatten(xss[1..]);
      if |c| == 0 {
        assert c == [];
        AppendNil(a + J);
        AppendNil(a + F);
        JoinAppend(a, J);
        JoinAppend(a, F);
      } else {
        JoinAppend(J, c);
        JoinAppend(F, c);
        AppendAssoc(a, J, c);
        AppendAssoc(a, F, c);
        JoinAppend(a, J + c);
        JoinAppend(a, F + c);
      }
    }
  }
}
