/** Python string operations the modelled code relies on, over `string` (= seq<char>). */
module Text {
  import opened Wrappers

  predicate EndsWith(s: string, suffix: string)
  {
    |suffix| <= |s| && s[|s| - |suffix|..] == suffix
  }

  /** Position of the first `c` in `s`. */
  function IndexOf(s: string, c: char): (i: nat)
    requires c in s
    ensures i < |s| && s[i] == c
  {
    if s[0] == c then 0 else 1 + IndexOf(s[1..], c)
  }

  /** IndexOf finds `c`, and no earlier `c`. */
  lemma {:induction false} IndexOfFirst(s: string, c: char)
    requires c in s
    ensures forall j :: 0 <= j < IndexOf(s, c) ==> s[j] != c
    decreases |s|
  {
    if s[0] != c {
      assert c in s[1..] by {
        var k :| 0 <= k < |s| && s[k] == c;
        assert s[1..][k - 1] == c;
      }
      IndexOfFirst(s[1..], c);
      assert forall j :: 1 <= j < |s| ==> s[j] == s[1..][j - 1];
    }
  }

  /** The first `c` in `a + [c] + b` is the one after `a` when `a` has none. */
  lemma IndexOfAfter(a: string, c: char, b: string)
    requires c !in a
    ensures IndexOf(a + [c] + b, c) == |a|
  {
    var s := a + [c] + b;
    assert forall j :: 0 <= j < |a| ==> s[j] == a[j];
    assert s[|a|] == c;
    IndexOfFirst(s, c);
  }

  /** `sep.join(parts)` for a one-character separator. */
  function Join(parts: seq<string>, sep: char): string
    decreases |parts|
  {
    if parts == [] then ""
    else if |parts| == 1 then parts[0]
    else parts[0] + [sep] + Join(parts[1..], sep)
  }

  /** `s.split(sep)` for a one-character separator: every occurrence splits, so
      there is always one more field than there are separators. */
  function Split(s: string, sep: char): (parts: seq<string>)
    ensures |parts| >= 1
    decreases |s|
  {
    if sep !in s then [s]
    else
      var i := IndexOf(s, sep);
      [s[..i]] + Split(s[i + 1..], sep)
  }

  /** A field without the separator, then the separator: the split starts
      with that field. */
  lemma SplitAfter(a: string, c: char, b: string)
    requires c !in a
    ensures Split(a + [c] + b, c) == [a] + Split(b, c)
  {
    var s := a + [c] + b;
    assert s[|a|] == c;
    IndexOfAfter(a, c, b);
    assert s[..|a|] == a;
    assert s[|a| + 1..] == b;
  }

  /** No field of a split holds the separator. */
  lemma {:induction false} SplitNoSep(s: string, sep: char)
    ensures forall i :: 0 <= i < |Split(s, sep)| ==> sep !in Split(s, sep)[i]
    decreases |s|
  {
    if sep in s {
      var i := IndexOf(s, sep);
      IndexOfFirst(s, sep);
      var rest := Split(s[i + 1..], sep);
      SplitNoSep(s[i + 1..], sep);
      assert Split(s, sep) == [s[..i]] + rest;
      assert sep !in s[..i] by {
        assert forall j :: 0 <= j < i ==> s[..i][j] == s[j];
      }
    }
  }

  /** Joining the fields of a split with the same separator gives the text back. */
  lemma {:induction false} JoinSplit(s: string, sep: char)
    ensures Join(Split(s, sep), sep) == s
    decreases |s|
  {
    if sep in s {
      var i := IndexOf(s, sep);
      IndexOfFirst(s, sep);
      var rest := Split(s[i + 1..], sep);
      JoinSplit(s[i + 1..], sep);
      assert ([s[..i]] + rest)[1..] == rest;
      assert s == s[..i] + [sep] + s[i + 1..];
    }
  }

  /** Splitting undoes joining when no field holds the separator. */
  lemma {:induction false} SplitJoin(parts: seq<string>, sep: char)
    requires |parts| >= 1
    requires forall i :: 0 <= i < |parts| ==> sep !in parts[i]
    ensures Split(Join(parts, sep), sep) == parts
    decreases |parts|
  {
    if |parts| > 1 {
      SplitAfter(parts[0], sep, Join(parts[1..], sep));
      SplitJoin(parts[1..], sep);
    } else {
      assert sep !in parts[0];
    }
  }

  /** The last field of a split is empty exactly when the text is empty or
      ends with the separator. */
  lemma SplitLastEmpty(s: string, sep: char)
    ensures Split(s, sep)[|Split(s, sep)| - 1] == "" <==> s == "" || s[|s| - 1] == sep
  {
    if s == "" || s[|s| - 1] == sep {
      SplitLastEmptyIf(s, sep);
    } else {
      SplitLastNonEmpty(s, sep);
    }
  }

  lemma {:induction false} SplitLastEmptyIf(s: string, sep: char)
    requires s == "" || s[|s| - 1] == sep
    ensures Split(s, sep)[|Split(s, sep)| - 1] == ""
    decreases |s|
  {
    if s != "" {
      assert s[|s| - 1] in s;
      var i := IndexOf(s, sep);
      var t := s[i + 1..];
      var rest := Split(t, sep);
      var parts := Split(s, sep);
      assert parts == [s[..i]] + rest;
      assert parts[|parts| - 1] == rest[|rest| - 1];
      if t != "" {
        assert t[|t| - 1] == s[|s| - 1];
      }
      SplitLastEmptyIf(t, sep);
    }
  }

  lemma {:induction false} SplitLastNonEmpty(s: string, sep: char)
    requires s != "" && s[|s| - 1] != sep
    ensures Split(s, sep)[|Split(s, sep)| - 1] != ""
    decreases |s|
  {
    if sep !in s {
      assert Split(s, sep) == [s];
    } else {
      var i := IndexOf(s, sep);
      var t := s[i + 1..];
      assert t != "" && t[|t| - 1] == s[|s| - 1];
      SplitLastNonEmpty(t, sep);
      var rest := Split(t, sep);
      var parts := Split(s, sep);
      assert parts == [s[..i]] + rest;
      assert parts[|parts| - 1] == rest[|rest| - 1];
    }
  }

  /** Fields each followed by `sep`, as `find -print0` and `ls-files -z` print them. */
  function Terminated(fields: seq<string>, sep: char): string
  {
    Join(fields + [""], sep)
  }

  /** Splitting such text leaves an empty last field; the fields before it
      are the ones printed. */
  lemma TerminatedFields(fields: seq<string>, sep: char)
    requires forall i :: 0 <= i < |fields| ==> sep !in fields[i]
    ensures var parts := Split(Terminated(fields, sep), sep);
      parts[|parts| - 1] == "" && parts[..|parts| - 1] == fields
  {
    var all := fields + [""];
    assert forall i :: 0 <= i < |all| ==> sep !in all[i] by {
      forall i | 0 <= i < |all| ensures sep !in all[i] {
        if i < |fields| {
          assert all[i] == fields[i];
        }
      }
    }
    SplitJoin(all, sep);
    assert all[..|all| - 1] == fields;
  }

  /** Text after the last separator of a terminated list is its last field. */
  lemma {:induction false} JoinLast(fields: seq<string>, tail: string, sep: char)
    ensures Terminated(fields, sep) + tail == Join(fields + [tail], sep)
    decreases |fields|
  {
    if fields != [] {
      JoinLast(fields[1..], tail, sep);
      assert (fields + [""])[1..] == fields[1..] + [""];
      assert (fields + [tail])[1..] == fields[1..] + [tail];
    }
  }

  /** Joining five fields puts one separator between consecutive fields. */
  lemma Join5(a: string, b: string, c: string, d: string, e: string, sep: char)
    ensures Join([a, b, c, d, e], sep) == a + ([sep] + (b + ([sep] + (c + ([sep] + (d + ([sep] + e)))))))
  {
    assert [d, e][1..] == [e];
    assert Join([d, e], sep) == d + [sep] + e;
    assert [c, d, e][1..] == [d, e];
    assert Join([c, d, e], sep) == c + [sep] + (d + [sep] + e);
    assert [b, c, d, e][1..] == [c, d, e];
    assert Join([b, c, d, e], sep) == b + [sep] + (c + [sep] + (d + [sep] + e));
    assert [a, b, c, d, e][1..] == [b, c, d, e];
    assert Join([a, b, c, d, e], sep) == a + [sep] + (b + [sep] + (c + [sep] + (d + [sep] + e)));
  }

  /** `sub` occurs in `s` at position `i`. */
  predicate OccursAt(s: string, sub: string, i: nat)
  {
    i + |sub| <= |s| && s[i..i + |sub|] == sub
  }

  /** `s.partition(sep)`: the text before the first `sep`, the separator (or
      "" when absent) and the text after it (all of `s` before when absent). */
  function Partition(s: string, sep: string): (string, string, string)
    requires sep != ""
    decreases |s|
  {
    if sep <= s then ("", sep, s[|sep|..])
    else if s == "" then ("", "", "")
    else
      var r := Partition(s[1..], sep);
      ([s[0]] + r.0, r.1, r.2)
  }

  /** An occurrence one position further in `s` is an occurrence in `s[1..]`. */
  lemma OccursAtShift(s: string, sub: string, j: nat)
    requires s != ""
    ensures OccursAt(s, sub, j + 1) <==> OccursAt(s[1..], sub, j)
  {
    if j + 1 + |sub| <= |s| {
      assert s[j + 1..j + 1 + |sub|] == s[1..][j..j + |sub|];
    }
  }

  /** Partition's three parts make up `s`, and either the separator was
      found or everything is in the first part. */
  lemma {:induction false} PartitionParts(s: string, sep: string)
    requires sep != ""
    ensures var r := Partition(s, sep);
      && r.0 + r.1 + r.2 == s
      && (r.1 == sep || (r.0 == s && r.1 == "" && r.2 == ""))
    decreases |s|
  {
    if !(sep <= s) && s != "" {
      PartitionParts(s[1..], sep);
      assert [s[0]] + s[1..] == s;
    }
  }

  /** A found separator sits at the end of the first part, and no earlier
      occurrence exists. */
  lemma {:induction false} PartitionFound(s: string, sep: string)
    requires sep != "" && Partition(s, sep).1 == sep
    ensures var r := Partition(s, sep);
      OccursAt(s, sep, |r.0|) && forall j :: 0 <= j < |r.0| ==> !OccursAt(s, sep, j)
    decreases |s|
  {
    var r := Partition(s, sep);
    if sep <= s {
      assert OccursAt(s, sep, 0);
    } else {
      PartitionFound(s[1..], sep);
      OccursAtShift(s, sep, |r.0| - 1);
      forall j | 0 <= j < |r.0|
        ensures !OccursAt(s, sep, j)
      {
        if j > 0 {
          OccursAtShift(s, sep, j - 1);
        }
      }
    }
  }

  /** When Partition does not find the separator, it occurs nowhere. */
  lemma {:induction false} PartitionAbsent(s: string, sep: string)
    requires sep != "" && Partition(s, sep).1 == ""
    ensures forall j :: 0 <= j <= |s| ==> !OccursAt(s, sep, j)
    decreases |s|
  {
    if s != "" {
      PartitionAbsent(s[1..], sep);
      forall j | 0 <= j <= |s|
        ensures !OccursAt(s, sep, j)
      {
        if j > 0 {
          OccursAtShift(s, sep, j - 1);
        }
      }
    }
  }

  /** Partition's three parts make up `s`; the separator is either found at
      its first occurrence, or absent and then everything is in the first part. */
  lemma PartitionSpec(s: string, sep: string)
    requires sep != ""
    ensures var r := Partition(s, sep);
      && r.0 + r.1 + r.2 == s
      && (r.1 == sep || (r.0 == s && r.1 == "" && r.2 == ""))
      && (r.1 == sep ==> OccursAt(s, sep, |r.0|) && forall j :: 0 <= j < |r.0| ==> !OccursAt(s, sep, j))
      && (r.1 == "" ==> forall j :: 0 <= j <= |s| ==> !OccursAt(s, sep, j))
  {
    PartitionParts(s, sep);
    if Partition(s, sep).1 == sep {
      PartitionFound(s, sep);
    } else {
      PartitionAbsent(s, sep);
    }
  }

  /** Partition cuts at the first occurrence of the separator, wherever that is. */
  lemma PartitionFirst(s: string, sep: string, k: nat)
    requires sep != "" && OccursAt(s, sep, k)
    requires forall j :: 0 <= j < k ==> !OccursAt(s, sep, j)
    ensures Partition(s, sep) == (s[..k], sep, s[k + |sep|..])
  {
    var r := Partition(s, sep);
    PartitionSpec(s, sep);
    assert r.1 == sep;
    assert OccursAt(s, sep, |r.0|);
    assert |r.0| == k;
    assert s == r.0 + (r.1 + r.2);
    assert r.0 == s[..k];
  }

  /** A one-character separator occurs exactly where that character is. */
  lemma OccursAtChar(s: string, c: char, j: nat)
    ensures OccursAt(s, [c], j) <==> j < |s| && s[j] == c
  {
    if j < |s| && s[j] == c {
      assert s[j..j + 1] == [c];
    }
  }

  /** Partition at a one-character separator cuts at its first position. */
  lemma PartitionChar(s: string, c: char)
    ensures Partition(s, [c]) ==
      if c in s then (s[..IndexOf(s, c)], [c], s[IndexOf(s, c) + 1..]) else (s, "", "")
  {
    var r := Partition(s, [c]);
    PartitionSpec(s, [c]);
    OccursAtChar(s, c, |r.0|);
    if c in s {
      var k := IndexOf(s, c);
      IndexOfFirst(s, c);
      OccursAtChar(s, c, k);
      forall j | 0 <= j < k
        ensures !OccursAt(s, [c], j)
      {
        OccursAtChar(s, c, j);
      }
      PartitionFirst(s, [c], k);
    }
  }

  /** Partition of `a + [c] + b` at `c` gives back `a` and `b` when `a` has no `c`. */
  lemma PartitionAfter(a: string, c: char, b: string)
    requires c !in a
    ensures Partition(a + [c] + b, [c]) == (a, [c], b)
  {
    var s := a + [c] + b;
    assert s[|a|] == c;
    PartitionChar(s, c);
    IndexOfAfter(a, c, b);
    assert s[..|a|] == a;
    assert s[|a| + 1..] == b;
  }

  /** `s.removeprefix(prefix)`. */
  function RemovePrefix(s: string, prefix: string): (r: string)
    ensures prefix <= s ==> prefix + r == s
    ensures !(prefix <= s) ==> r == s
  {
    if prefix <= s then s[|prefix|..] else s
  }

  /** `s.removesuffix(suffix)`. */
  function RemoveSuffix(s: string, suffix: string): (r: string)
    ensures EndsWith(s, suffix) ==> r + suffix == s
    ensures !EndsWith(s, suffix) ==> r == s
  {
    if EndsWith(s, suffix) then s[..|s| - |suffix|] else s
  }

  /** The characters Python's `str.strip()` removes. */
  predicate IsSpace(c: char)
  {
    c == ' ' || ('\t' <= c <= '\r') || ('\U{1c}' <= c <= '\U{1f}')
    || c == '\U{85}' || c == '\U{a0}' || c == '\U{1680}' || ('\U{2000}' <= c <= '\U{200a}')
    || c == '\U{2028}' || c == '\U{2029}' || c == '\U{202f}' || c == '\U{205f}' || c == '\U{3000}'
  }

  /** `s.lstrip()`. */
  function LStrip(s: string): string
    decreases |s|
  {
    if s != "" && IsSpace(s[0]) then LStrip(s[1..]) else s
  }

  /** `lstrip` removes the leading white space and nothing else. */
  lemma {:induction false} LStripSpec(s: string)
    ensures var r := LStrip(s);
      && |r| <= |s| && r == s[|s| - |r|..]
      && (forall i :: 0 <= i < |s| - |r| ==> IsSpace(s[i]))
      && (r == "" || !IsSpace(r[0]))
    decreases |s|
  {
    if s != "" && IsSpace(s[0]) {
      LStripSpec(s[1..]);
    }
  }

  /** `s.rstrip()`. */
  function RStrip(s: string): string
    decreases |s|
  {
    if s != "" && IsSpace(s[|s| - 1]) then RStrip(s[..|s| - 1]) else s
  }

  /** `rstrip` removes the trailing white space and nothing else. */
  lemma {:induction false} RStripSpec(s: string)
    ensures var r := RStrip(s);
      && r <= s
      && (forall i :: |r| <= i < |s| ==> IsSpace(s[i]))
      && (r == "" || !IsSpace(r[|r| - 1]))
    decreases |s|
  {
    if s != "" && IsSpace(s[|s| - 1]) {
      RStripSpec(s[..|s| - 1]);
    }
  }

  /** `s.strip()`. */
  function Strip(s: string): string
  {
    RStrip(LStrip(s))
  }
}
