/** Parsing of git's NUL-delimited raw diff output (`git diff-index -z`) into
    DiffRecords, as `parse_raw_diff`, `pairwise`, `iter_diff_records` and
    `iter_diff_records_undeleted` do. */
module DiffRecords {
  import opened Wrappers
  import opened Text

  /** One raw diff entry: the five descriptor fields and the path. */
  datatype DiffRecord = DiffRecord(
    modeAfter: string, modeBefore: string, hashAfter: string, hashBefore: string,
    status: string, path: string)

  /** The five descriptor fields, in the order git writes them. */
  function Fields(r: DiffRecord): seq<string>
  {
    [r.modeAfter, r.modeBefore, r.hashAfter, r.hashBefore, r.status]
  }

  /** The descriptor git writes for a record: a colon, then the fields separated by spaces. */
  function FormatDescriptor(r: DiffRecord): string
  {
    ":" + Join(Fields(r), ' ')
  }

  /** `parse_raw_diff(diff, path)`: the descriptor must split on single spaces
      into exactly five fields (otherwise the unpacking raises ValueError);
      one leading ":" is removed from the first field only. */
  function ParseRawDiff(diff: string, path: string): Result<DiffRecord, Error>
  {
    var f := Split(diff, ' ');
    if |f| != 5 then Failure(ValueError(diff))
    else Success(DiffRecord(RemovePrefix(f[0], ":"), f[1], f[2], f[3], f[4], path))
  }

  /** What parsing keeps: the descriptor is the record's fields joined by
      spaces, preceded by the one colon that was removed, if there was one;
      no field holds a space. */
  lemma ParseRawDiffKeepsFields(diff: string, path: string)
    requires ParseRawDiff(diff, path).Success?
    ensures var r := ParseRawDiff(diff, path).value;
      && (forall i :: 0 <= i < 5 ==> ' ' !in Fields(r)[i])
      && (diff == FormatDescriptor(r) || (diff == Join(Fields(r), ' ') && !(":" <= diff)))
  {
    ParsedFieldsHaveNoSpace(diff, path);
    ParsedFieldsJoin(diff, path);
  }

  lemma ParsedFieldsHaveNoSpace(diff: string, path: string)
    requires ParseRawDiff(diff, path).Success?
    ensures var r := ParseRawDiff(diff, path).value;
      forall i :: 0 <= i < 5 ==> ' ' !in Fields(r)[i]
  {
    var f := Split(diff, ' ');
    var r := ParseRawDiff(diff, path).value;
    SplitNoSep(diff, ' ');
    if ":" <= f[0] {
      assert r.modeAfter == f[0][1..];
    }
    assert Fields(r)[1..] == f[1..];
  }

  lemma ParsedFieldsJoin(diff: string, path: string)
    requires ParseRawDiff(diff, path).Success?
    ensures var r := ParseRawDiff(diff, path).value;
      diff == FormatDescriptor(r) || (diff == Join(Fields(r), ' ') && !(":" <= diff))
  {
    var f := Split(diff, ' ');
    assert |f| == 5;
    var r := DiffRecord(RemovePrefix(f[0], ":"), f[1], f[2], f[3], f[4], path);
    assert ParseRawDiff(diff, path).value == r;
    assert Fields(r)[1..] == f[1..];
    assert [f[0]] + f[1..] == f;
    JoinSplit(diff, ' ');
    FieldsJoin(f[0], f[1..], r);
  }

  /** Fields whose first has had one leading colon removed join to the
      record's descriptor, or to its bare fields when there was no colon. */
  lemma FieldsJoin(first: string, others: seq<string>, r: DiffRecord)
    requires |others| == 4 && r.modeAfter == RemovePrefix(first, ":") && Fields(r)[1..] == others
    ensures var s := Join([first] + others, ' ');
      s == FormatDescriptor(r) || (s == Join(Fields(r), ' ') && !(":" <= s))
  {
    var rest := [' '] + Join(others, ' ');
    var s := Join([first] + others, ' ');
    assert ([first] + others)[1..] == others;
    assert s == first + rest;
    assert Join(Fields(r), ' ') == r.modeAfter + rest;
    if ":" <= first {
      assert s == ":" + (r.modeAfter + rest);
    } else if first == "" {
      assert s[0] == ' ';
    } else {
      assert s[0] == first[0];
    }
  }

  /** A record whose descriptor fields hold no space: formatting it and
      parsing the result gives it back. */
  lemma FormatParseRoundTrip(r: DiffRecord)
    requires forall i :: 0 <= i < 5 ==> ' ' !in Fields(r)[i]
    ensures ParseRawDiff(FormatDescriptor(r), r.path) == Success(r)
  {
    var parts := [":" + r.modeAfter] + Fields(r)[1..];
    DescriptorFields(r);
    assert forall i :: 0 <= i < |parts| ==> ' ' !in parts[i] by {
      assert ' ' !in Fields(r)[0];
    }
    SplitJoin(parts, ' ');
    assert RemovePrefix(parts[0], ":") == r.modeAfter;
  }

  /** A descriptor is the record's fields joined by spaces with the colon
      attached to the first one. */
  lemma DescriptorFields(r: DiffRecord)
    ensures FormatDescriptor(r) == Join([":" + r.modeAfter] + Fields(r)[1..], ' ')
  {
    var fs := Fields(r);
    var parts := [":" + r.modeAfter] + fs[1..];
    var rest := [' '] + Join(fs[1..], ' ');
    assert parts[1..] == fs[1..];
    assert Join(fs, ' ') == r.modeAfter + rest;
    assert Join(parts, ' ') == ":" + r.modeAfter + rest;
  }

  /** `pairwise`: consecutive pairs; a dangling last element is dropped. */
  function Pairwise<T>(xs: seq<T>): (ps: seq<(T, T)>)
    ensures |ps| == |xs| / 2
    decreases |xs|
  {
    if |xs| < 2 then [] else [(xs[0], xs[1])] + Pairwise(xs[2..])
  }

  /** Pair `i` is made of elements `2i` and `2i + 1`. */
  lemma {:induction false} PairwiseAt<T>(xs: seq<T>, i: nat)
    requires i < |xs| / 2
    ensures Pairwise(xs)[i] == (xs[2 * i], xs[2 * i + 1])
    decreases i
  {
    if i > 0 {
      PairwiseAt(xs[2..], i - 1);
    }
  }

  /** A lazily produced sequence of records: what was yielded before the
      generator raised, and what it raised (None when it ran to the end). */
  datatype RecordStream = RecordStream(records: seq<DiffRecord>, error: Option<Error>)

  /** Parse (descriptor, path) pairs in order, stopping at the first malformed one. */
  function ParsePairs(pairs: seq<(string, string)>): (s: RecordStream)
    ensures |s.records| <= |pairs|
    ensures s.error.None? <==> |s.records| == |pairs|
    ensures s.error.Some? ==> s.error.value.ValueError?
    decreases |pairs|
  {
    if pairs == [] then RecordStream([], None)
    else
      match ParseRawDiff(pairs[0].0, pairs[0].1)
      case Failure(e) => RecordStream([], Some(e))
      case Success(r) =>
        var rest := ParsePairs(pairs[1..]);
        RecordStream([r] + rest.records, rest.error)
  }

  /** Every record yielded is the parse of the pair in the same position, and
      a failure is the parse failure of the first pair not yielded. */
  lemma {:induction false} ParsePairsYields(pairs: seq<(string, string)>)
    ensures var s := ParsePairs(pairs);
      && (forall i :: 0 <= i < |s.records| ==> ParseRawDiff(pairs[i].0, pairs[i].1) == Success(s.records[i]))
      && (s.error.Some? ==> ParseRawDiff(pairs[|s.records|].0, pairs[|s.records|].1) == Failure(s.error.value))
    decreases |pairs|
  {
    if pairs != [] && ParseRawDiff(pairs[0].0, pairs[0].1).Success? {
      ParsePairsYields(pairs[1..]);
    }
  }

  /** `iter_diff_records` applied to a command's stdout: split on NUL, assert
      the last field is empty (before anything is yielded), then parse the
      remaining fields pairwise. */
  function IterDiffRecords(stdout: string): RecordStream
  {
    var parts := Split(stdout, '\0');
    if parts[|parts| - 1] != "" then RecordStream([], Some(AssertionError))
    else ParseFields(parts[..|parts| - 1])
  }

  /** The format assertion fails, with nothing yielded, exactly when the
      output is neither empty nor NUL-terminated. */
  lemma IterDiffRecordsAsserts(stdout: string)
    ensures var s := IterDiffRecords(stdout);
      (s.error == Some(AssertionError) <==> !(stdout == "" || stdout[|stdout| - 1] == '\0'))
      && (s.error == Some(AssertionError) ==> s.records == [])
  {
    var parts := Split(stdout, '\0');
    SplitLastEmpty(stdout, '\0');
    if parts[|parts| - 1] == "" {
      var r := ParseFields(parts[..|parts| - 1]);
      assert IterDiffRecords(stdout) == r;
      assert r.error != Some(AssertionError);
    }
  }

  /** The NUL-separated fields read as (descriptor, path) pairs. */
  function ParseFields(fields: seq<string>): (s: RecordStream)
    ensures s.error.Some? ==> s.error.value.ValueError?
  {
    ParsePairs(Pairwise(fields))
  }

  /** The records whose status is not "D", in order. */
  function Undeleted(rs: seq<DiffRecord>): (u: seq<DiffRecord>)
    ensures |u| <= |rs|
    decreases |rs|
  {
    if rs == [] then []
    else (if rs[0].status != "D" then [rs[0]] else []) + Undeleted(rs[1..])
  }

  /** Exactly the records not marked deleted are kept. */
  lemma {:induction false} UndeletedMembers(rs: seq<DiffRecord>)
    ensures forall r :: r in Undeleted(rs) <==> r in rs && r.status != "D"
    decreases |rs|
  {
    if rs != [] {
      UndeletedMembers(rs[1..]);
      assert rs == [rs[0]] + rs[1..];
    }
  }

  /** Filtering distributes over concatenation, so the order of records is kept. */
  lemma {:induction false} UndeletedAppend(a: seq<DiffRecord>, b: seq<DiffRecord>)
    ensures Undeleted(a + b) == Undeleted(a) + Undeleted(b)
    decreases |a|
  {
    if a == [] {
      assert a + b == b;
    } else {
      assert (a + b)[1..] == a[1..] + b;
      UndeletedAppend(a[1..], b);
    }
  }

  /** `iter_diff_records_undeleted`: the same stream without the deleted records. */
  function IterUndeleted(stdout: string): RecordStream
  {
    var all := IterDiffRecords(stdout);
    RecordStream(Undeleted(all.records), all.error)
  }

  /** The paths of a sequence of records. */
  function RecordPaths(rs: seq<DiffRecord>): (ps: seq<string>)
    ensures |ps| == |rs|
    decreases |rs|
  {
    if rs == [] then [] else [rs[0].path] + RecordPaths(rs[1..])
  }

  /** The `i`th path is the `i`th record's. */
  lemma {:induction false} RecordPathsAt(rs: seq<DiffRecord>, i: nat)
    requires i < |rs|
    ensures RecordPaths(rs)[i] == rs[i].path
    decreases i
  {
    if i > 0 {
      RecordPathsAt(rs[1..], i - 1);
    }
  }

  /** The NUL-separated fields git writes for some records: descriptor and path of each. */
  function RawFields(rs: seq<DiffRecord>): (fs: seq<string>)
    ensures |fs| == 2 * |rs|
    decreases |rs|
  {
    if rs == [] then [] else [FormatDescriptor(rs[0]), rs[0].path] + RawFields(rs[1..])
  }

  /** Record `i` contributes fields `2i` (its descriptor) and `2i + 1` (its path). */
  lemma {:induction false} RawFieldsAt(rs: seq<DiffRecord>, i: nat)
    requires i < |rs|
    ensures RawFields(rs)[2 * i] == FormatDescriptor(rs[i])
    ensures RawFields(rs)[2 * i + 1] == rs[i].path
    decreases i
  {
    if i > 0 {
      RawFieldsAt(rs[1..], i - 1);
    }
  }

  /** The whole `git diff-index -z` output for some records: every field followed by a NUL. */
  function RawDiffOutput(rs: seq<DiffRecord>): string
  {
    Join(RawFields(rs) + [""], '\0')
  }

  /** No field of a record holds a NUL, and no descriptor field holds a space. */
  predicate WellFormed(r: DiffRecord)
  {
    && (forall i :: 0 <= i < 5 ==> ' ' !in Fields(r)[i] && '\0' !in Fields(r)[i])
    && '\0' !in r.path
  }

  lemma {:induction false} ParsePairsOfFormatted(rs: seq<DiffRecord>, pairs: seq<(string, string)>)
    requires |pairs| == |rs|
    requires forall i :: 0 <= i < |rs| ==> WellFormed(rs[i]) && pairs[i] == (FormatDescriptor(rs[i]), rs[i].path)
    ensures ParsePairs(pairs) == RecordStream(rs, None)
    decreases |rs|
  {
    if rs != [] {
      FormatParseRoundTrip(rs[0]);
      ParsePairsOfFormatted(rs[1..], pairs[1..]);
    }
  }

  /** Reading back what git writes for well-formed records yields exactly
      those records, in order, with no error. */
  lemma IterDiffRecordsRoundTrip(rs: seq<DiffRecord>)
    requires forall i :: 0 <= i < |rs| ==> WellFormed(rs[i])
    ensures IterDiffRecords(RawDiffOutput(rs)) == RecordStream(rs, None)
  {
    var fs := RawFields(rs) + [""];
    assert forall i :: 0 <= i < |fs| ==> '\0' !in fs[i] by {
      forall i | 0 <= i < |fs| ensures '\0' !in fs[i] {
        if i < 2 * |rs| {
          var k := i / 2;
          assert WellFormed(rs[k]);
          RawFieldsAt(rs, k);
          if i % 2 == 0 {
            assert fs[i] == FormatDescriptor(rs[k]);
            NoNulInDescriptor(rs[k]);
          } else {
            assert fs[i] == rs[k].path;
          }
        }
      }
    }
    SplitJoin(fs, '\0');
    assert fs[..|fs| - 1] == RawFields(rs);
    var pairs := Pairwise(RawFields(rs));
    forall i | 0 <= i < |rs|
      ensures pairs[i] == (FormatDescriptor(rs[i]), rs[i].path)
    {
      PairwiseAt(RawFields(rs), i);
      RawFieldsAt(rs, i);
    }
    ParsePairsOfFormatted(rs, pairs);
  }

  lemma NoNulInDescriptor(r: DiffRecord)
    requires WellFormed(r)
    ensures '\0' !in FormatDescriptor(r)
  {
    var fs := Fields(r);
    Join5(fs[0], fs[1], fs[2], fs[3], fs[4], ' ');
    assert '\0' !in fs[0] && '\0' !in fs[1] && '\0' !in fs[2] && '\0' !in fs[3] && '\0' !in fs[4];
  }
}
