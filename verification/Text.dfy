/** The string helpers the source takes from its standard library, on sequences of characters. */
module Text {
  /** Unicode white space. */
  predicate IsSpace(c: char) {
    || '\t' <= c <= '\r' || c == ' ' || c as int == 0x85 || c as int == 0xA0 || c as int == 0x1680
    || 0x2000 <= c as int <= 0x200A || c as int == 0x2028 || c as int == 0x2029 || c as int == 0x202F
    || c as int == 0x205F || c as int == 0x3000
  }

  function TrimLeft(s: string): string {
    if s != [] && IsSpace(s[0]) then TrimLeft(s[1..]) else s
  }

  function TrimRight(s: string): string
    decreases |s|
  {
    if s != [] && IsSpace(s[|s| - 1]) then TrimRight(s[..|s| - 1]) else s
  }

  function Trim(s: string): string { TrimRight(TrimLeft(s)) }

  lemma {:induction false} TrimLeftCuts(s: string) returns (i: nat)
    ensures i <= |s| && TrimLeft(s) == s[i..] && (forall k :: 0 <= k < i ==> IsSpace(s[k]))
    ensures TrimLeft(s) != [] ==> !IsSpace(TrimLeft(s)[0])
  {
    if s != [] && IsSpace(s[0]) {
      i := TrimLeftCuts(s[1..]);
      assert s[1..][i..] == s[i + 1..];
      assert forall k :: 1 <= k < i + 1 ==> s[k] == s[1..][k - 1];
      i := i + 1;
    } else {
      i := 0;
    }
  }

  lemma {:induction false} TrimRightCuts(s: string) returns (j: nat)
    ensures j <= |s| && TrimRight(s) == s[..j] && (forall k :: j <= k < |s| ==> IsSpace(s[k]))
    ensures TrimRight(s) != [] ==> !IsSpace(TrimRight(s)[|TrimRight(s)| - 1])
    decreases |s|
  {
    if s != [] && IsSpace(s[|s| - 1]) {
      j := TrimRightCuts(s[..|s| - 1]);
      assert s[..|s| - 1][..j] == s[..j];
    } else {
      j := |s|;
    }
  }

  /** Trimming takes the white space off both ends and nothing else. */
  lemma TrimCuts(s: string) returns (i: nat, j: nat)
    ensures i <= j <= |s| && Trim(s) == s[i..j]
    ensures forall k :: 0 <= k < i || j <= k < |s| ==> IsSpace(s[k])
    ensures Trim(s) != "" ==> !IsSpace(Trim(s)[0]) && !IsSpace(Trim(s)[|Trim(s)| - 1])
  {
    i := TrimLeftCuts(s);
    var n := TrimRightCuts(s[i..]);
    j := i + n;
    assert s[i..][..n] == s[i..j];
    assert forall k :: j <= k < |s| ==> s[k] == s[i..][k - i];
  }

  /** And all of it. */
  lemma {:induction false} TrimPadded(left: string, s: string, right: string)
    requires s != "" && !IsSpace(s[0]) && !IsSpace(s[|s| - 1])
    requires (forall k :: 0 <= k < |left| ==> IsSpace(left[k])) && (forall k :: 0 <= k < |right| ==> IsSpace(right[k]))
    ensures Trim(left + s + right) == s
    decreases |left| + |right|
  {
    var t := left + s + right;
    if left != "" {
      assert t[1..] == left[1..] + s + right;
      TrimPadded(left[1..], s, right);
    } else if right != "" {
      assert TrimLeft(t) == t;
      assert t[..|t| - 1] == left + s + right[..|right| - 1];
      assert TrimLeft(t[..|t| - 1]) == t[..|t| - 1];
      TrimPadded(left, s, right[..|right| - 1]);
    } else {
      assert t == s;
    }
  }

  /** So it neither drops nor adds any other character. */
  lemma TrimKeepsChar(s: string, c: char)
    requires !IsSpace(c)
    ensures c in Trim(s) <==> c in s
  {
    var i, j := TrimCuts(s);
    if c in s {
      var k :| 0 <= k < |s| && s[k] == c;
      assert s[i..j][k - i] == c;
    }
  }

  /** Lower-casing of the ASCII letters. */
  function Lower(s: string): (r: string)
    ensures |r| == |s|
  {
    seq(|s|, i requires 0 <= i < |s| => if 'A' <= s[i] <= 'Z' then s[i] - 'A' + 'a' else s[i])
  }

  predicate Contains(s: string, part: string) {
    part <= s || (s != [] && Contains(s[1..], part))
  }

  /** Two dots, one after the other. */
  predicate HasDotDot(s: string) { exists k :: 0 <= k < |s| - 1 && s[k] == '.' && s[k + 1] == '.' }

  lemma DotDotIff(s: string)
    ensures Contains(s, "..") <==> HasDotDot(s)
  {
    ContainsIff(s, "..");
    if i :| 0 <= i <= |s| && ".." <= s[i..] {
      assert s[i..][0] == s[i] && s[i..][1] == s[i + 1];
    }
    if HasDotDot(s) {
      var k :| 0 <= k < |s| - 1 && s[k] == '.' && s[k + 1] == '.';
      assert s[k..][..2] == "..";
    }
  }

  lemma TrimIsBlankIff(s: string)
    ensures Trim(s) == "" <==> forall k :: 0 <= k < |s| ==> IsSpace(s[k])
  {
    var i, j := TrimCuts(s);
    if Trim(s) != "" {
      assert !IsSpace(s[i]);
    }
  }

  /** Containing a text is having it somewhere, as a stretch. */
  lemma {:induction false} ContainsIff(s: string, part: string)
    ensures Contains(s, part) <==> exists i :: 0 <= i <= |s| && part <= s[i..]
  {
    assert s[0..] == s;
    if s != [] {
      ContainsIff(s[1..], part);
      assert forall i :: 0 <= i <= |s| - 1 ==> s[1..][i..] == s[i + 1..];
      if i :| 0 <= i <= |s| && part <= s[i..] && i > 0 {
        assert part <= s[1..][i - 1..];
      }
    }
  }
}
