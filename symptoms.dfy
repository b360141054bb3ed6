/**
 * Symptom frequency: each record's symptom text is split on commas, every
 * piece is stripped of surrounding whitespace, empty pieces are dropped and
 * the remaining tags are tallied across all records.
 *
 * `split(',')` and `strip()` are modelled as functions with Python's
 * behaviour; the tally is a map from tag to count. The same tally, applied to
 * the flow labels, models the flow distribution.
 */
module Symptoms {
  import opened Records

  // ---------------------------------------------------------------------------
  // strip()

  /** The characters Python's `str.isspace` accepts, which `strip()` removes. */
  predicate IsSpace(c: char)
  {
    || c == ' '
    || ('\t' <= c <= '\r')
    || ('\U{1c}' <= c <= '\U{1f}')
    || c == '\U{85}' || c == '\U{a0}' || c == '\U{1680}'
    || ('\U{2000}' <= c <= '\U{200a}')
    || c == '\U{2028}' || c == '\U{2029}' || c == '\U{202f}' || c == '\U{205f}' || c == '\U{3000}'
  }

  /** Length of the whitespace run at the front of `s`. */
  function LeadingSpaces(s: string): (k: nat)
    ensures k <= |s|
    ensures forall i :: 0 <= i < k ==> IsSpace(s[i])
    ensures k < |s| ==> !IsSpace(s[k])
  {
    if s == [] || !IsSpace(s[0]) then 0 else 1 + LeadingSpaces(s[1..])
  }

  /** Length of the whitespace run at the back of `s`. */
  function TrailingSpaces(s: string): (k: nat)
    ensures k <= |s|
    ensures forall i :: |s| - k <= i < |s| ==> IsSpace(s[i])
    ensures k < |s| ==> !IsSpace(s[|s| - 1 - k])
  {
    if s == [] || !IsSpace(s[|s| - 1]) then 0 else 1 + TrailingSpaces(s[..|s| - 1])
  }

  /**
   * Python's `s.strip()`: the part of `s` between its leading and its trailing
   * whitespace. It is empty exactly when `s` is all whitespace; otherwise it
   * neither starts nor ends with whitespace, and only whitespace was cut off.
   */
  function Strip(s: string): (t: string)
    ensures t == [] <==> forall i :: 0 <= i < |s| ==> IsSpace(s[i])
    ensures t != [] ==> !IsSpace(t[0]) && !IsSpace(t[|t| - 1])
    ensures LeadingSpaces(s) + |t| <= |s|
    ensures t == s[LeadingSpaces(s)..LeadingSpaces(s) + |t|]
    ensures forall i :: LeadingSpaces(s) + |t| <= i < |s| ==> IsSpace(s[i])
  {
    var lead := LeadingSpaces(s);
    if lead == |s| then []
    else
      var trail := TrailingSpaces(s);
      assert |s| - trail > lead;
      s[lead..|s| - trail]
  }

  // ---------------------------------------------------------------------------
  // split(',')

  /**
   * Python's `s.split(',')`: the pieces between commas, in order. There is at
   * least one piece, and no piece contains a comma.
   */
  function Split(s: string): (pieces: seq<string>)
    ensures |pieces| >= 1
    ensures forall p :: p in pieces ==> ',' !in p
  {
    if s == [] then [[]]
    else
      var rest := Split(s[1..]);
      if s[0] == ',' then [[]] + rest
      else
        assert rest[0] in rest;
        assert forall c :: c in [s[0]] + rest[0] ==> c == s[0] || c in rest[0];
        [[s[0]] + rest[0]] + rest[1..]
  }

  /** There is one more piece than the text has commas. */
  lemma {:induction false} SplitCount(s: string)
    ensures |Split(s)| == multiset(s)[','] + 1
  {
    if s != [] {
      SplitCount(s[1..]);
      assert s == [s[0]] + s[1..];
    }
  }

  /** The pieces put back together with a comma between neighbours (`','.join`). */
  function Join(pieces: seq<string>): string
    requires pieces != []
  {
    if |pieces| == 1 then pieces[0] else pieces[0] + [','] + Join(pieces[1..])
  }

  /** Joining a leading piece in front of further pieces puts one comma between them. */
  lemma JoinCons(a: string, rest: seq<string>)
    requires rest != []
    ensures Join([a] + rest) == a + [','] + Join(rest)
  {
    assert ([a] + rest)[1..] == rest;
  }

  /** Prefixing a character to the first piece prefixes it to the joined text. */
  lemma {:induction false} JoinExtendHead(c: char, rest: seq<string>)
    requires rest != []
    ensures Join([[c] + rest[0]] + rest[1..]) == [c] + Join(rest)
  {
    var pieces := [[c] + rest[0]] + rest[1..];
    if |rest| > 1 {
      assert pieces[1..] == rest[1..];
      assert Join(pieces) == ([c] + rest[0]) + [','] + Join(rest[1..]);
      assert Join(rest) == rest[0] + [','] + Join(rest[1..]);
    }
  }

  /** Splitting loses nothing: joining the pieces again gives back the original text. */
  lemma {:induction false} JoinSplit(s: string)
    ensures Join(Split(s)) == s
  {
    if s != [] {
      var rest := Split(s[1..]);
      JoinSplit(s[1..]);
      assert s == [s[0]] + s[1..];
      if s[0] == ',' {
        JoinCons([], rest);
      } else {
        JoinExtendHead(s[0], rest);
      }
    }
  }

  // ---------------------------------------------------------------------------
  // Tokens

  /** The non-empty stripped pieces, in order. */
  function NonEmptyStripped(pieces: seq<string>): seq<string>
  {
    if pieces == [] then []
    else
      var t := Strip(pieces[|pieces| - 1]);
      NonEmptyStripped(pieces[..|pieces| - 1]) + (if t == [] then [] else [t])
  }

  /** All symptom tags of all records, in record order and then in text order. */
  function SymptomTokens(rs: seq<Record>): seq<string>
  {
    if rs == [] then []
    else SymptomTokens(rs[..|rs| - 1]) + NonEmptyStripped(Split(rs[|rs| - 1].symptoms))
  }

  /** A clean tag: non-empty, free of commas, with no whitespace at either end. */
  predicate CleanTag(t: string)
  {
    t != [] && ',' !in t && !IsSpace(t[0]) && !IsSpace(t[|t| - 1])
  }

  lemma {:induction false} NonEmptyStrippedClean(pieces: seq<string>)
    requires forall p :: p in pieces ==> ',' !in p
    ensures forall t :: t in NonEmptyStripped(pieces) ==> CleanTag(t)
  {
    if pieces != [] {
      var last := pieces[|pieces| - 1];
      assert last in pieces;
      var init := pieces[..|pieces| - 1];
      assert forall p :: p in init ==> p in pieces;
      NonEmptyStrippedClean(init);
      var t := Strip(last);
      if t != [] {
        var lead := LeadingSpaces(last);
        assert t == last[lead..lead + |t|];
        forall i | 0 <= i < |t| ensures t[i] != ',' {
          assert t[i] == last[lead + i];
          assert last[lead + i] in last;
        }
        assert ',' !in t;
      }
    }
  }

  /** Every tag that is counted is a clean tag. */
  lemma {:induction false} SymptomTokensClean(rs: seq<Record>)
    ensures forall t :: t in SymptomTokens(rs) ==> CleanTag(t)
  {
    if rs != [] {
      SymptomTokensClean(rs[..|rs| - 1]);
      NonEmptyStrippedClean(Split(rs[|rs| - 1].symptoms));
    }
  }

  // ---------------------------------------------------------------------------
  // Tally

  /** One more occurrence of `t`: `m[t] = m.get(t, 0) + 1`. */
  function Bump(m: map<string, nat>, t: string): map<string, nat>
  {
    m[t := (if t in m then m[t] else 0) + 1]
  }

  /** The dictionary the counting loop builds, bumping one tag at a time from the front. */
  function Tally(ts: seq<string>): map<string, nat>
  {
    if ts == [] then map[] else Bump(Tally(ts[..|ts| - 1]), ts[|ts| - 1])
  }

  /** The tally counts occurrences: a tag is a key exactly when it occurs, and its value is how often. */
  lemma {:induction false} TallyCounts(ts: seq<string>)
    ensures forall t :: t in Tally(ts) <==> t in multiset(ts)
    ensures forall t :: t in Tally(ts) ==> Tally(ts)[t] == multiset(ts)[t]
  {
    if ts != [] {
      var init := ts[..|ts| - 1];
      TallyCounts(init);
      assert ts == init + [ts[|ts| - 1]];
    }
  }

  /** Sum of all values of a tally. */
  ghost function Total(m: map<string, nat>): nat
    decreases |m|
  {
    if m == map[] then 0
    else
      var k :| k in m;
      m[k] + Total(m - {k})
  }

  /** Total may take its keys in any order. */
  lemma {:induction false} TotalWithout(m: map<string, nat>, k: string)
    requires k in m
    ensures Total(m) == m[k] + Total(m - {k})
    decreases |m|
  {
    var j :| j in m && Total(m) == m[j] + Total(m - {j});
    if j != k {
      var mj := m - {j};
      var mk := m - {k};
      assert |mj| < |m|;
      assert |mk| < |m|;
      TotalWithout(mj, k);
      TotalWithout(mk, j);
      assert mj - {k} == mk - {j};
    }
  }

  /** The counts add up to the number of tags counted. */
  lemma {:induction false} TallyTotal(ts: seq<string>)
    ensures Total(Tally(ts)) == |ts|
  {
    if ts != [] {
      var init := ts[..|ts| - 1];
      var t := ts[|ts| - 1];
      var m := Tally(init);
      TallyTotal(init);
      var m' := Bump(m, t);
      TotalWithout(m', t);
      assert m' - {t} == m - {t};
      if t in m {
        TotalWithout(m, t);
      } else {
        assert m - {t} == m;
      }
    }
  }

  // ---------------------------------------------------------------------------
  // The counting loop

  lemma TallySnoc(ts: seq<string>, t: string)
    ensures Tally(ts + [t]) == Bump(Tally(ts), t)
  {
    assert (ts + [t])[..|ts|] == ts;
  }

  lemma SymptomTokensPrefix(rs: seq<Record>, i: nat)
    requires i < |rs|
    ensures SymptomTokens(rs[..i + 1]) == SymptomTokens(rs[..i]) + NonEmptyStripped(Split(rs[i].symptoms))
  {
    assert rs[..i + 1][..i] == rs[..i];
  }

  lemma NonEmptyStrippedPrefix(pieces: seq<string>, j: nat)
    requires j < |pieces|
    ensures NonEmptyStripped(pieces[..j + 1])
         == NonEmptyStripped(pieces[..j]) + (if Strip(pieces[j]) == [] then [] else [Strip(pieces[j])])
  {
    assert pieces[..j + 1][..j] == pieces[..j];
  }

  /**
   * The inner loop over one record's pieces: each non-empty stripped piece is
   * counted once more, exactly as if the tally had been run over the tags seen
   * so far followed by this record's tags.
   */
  method CountPieces(freq0: map<string, nat>, pieces: seq<string>, ghost seen0: seq<string>)
    returns (freq: map<string, nat>)
    requires freq0 == Tally(seen0)
    ensures freq == Tally(seen0 + NonEmptyStripped(pieces))
  {
    freq := freq0;
    ghost var seen := seen0;
    TakeNone(pieces);
    AppendEmpty(seen0);
    for j := 0 to |pieces|
      invariant seen == seen0 + NonEmptyStripped(pieces[..j])
      invariant freq == Tally(seen)
    {
      NonEmptyStrippedPrefix(pieces, j);
      var s := Strip(pieces[j]);
      if s != [] {
        TallySnoc(seen, s);
        AppendAssoc(seen0, NonEmptyStripped(pieces[..j]), [s]);
        freq := Bump(freq, s);
        seen := seen + [s];
      } else {
        AppendEmpty(NonEmptyStripped(pieces[..j]));
      }
    }
    TakeAll(pieces);
  }

  /**
   * The nested loop of the symptom-frequency chart: every clean tag of every
   * record is counted once, the count of a tag is the number of its
   * occurrences, and the counts add up to the number of tags.
   */
  method SymptomFrequency(rs: seq<Record>) returns (freq: map<string, nat>)
    ensures freq == Tally(SymptomTokens(rs))
    ensures forall t :: t in freq <==> t in multiset(SymptomTokens(rs))
    ensures forall t :: t in freq ==> freq[t] == multiset(SymptomTokens(rs))[t]
    ensures Total(freq) == |SymptomTokens(rs)|
  {
    freq := map[];
    for i := 0 to |rs|
      invariant freq == Tally(SymptomTokens(rs[..i]))
    {
      var pieces := Split(rs[i].symptoms);
      freq := CountPieces(freq, pieces, SymptomTokens(rs[..i]));
      SymptomTokensPrefix(rs, i);
    }
    assert rs[..|rs|] == rs;
    TallyCounts(SymptomTokens(rs));
    TallyTotal(SymptomTokens(rs));
  }

  // ---------------------------------------------------------------------------
  // Further properties of split and strip

  /** Text without a comma is a single piece. */
  lemma {:induction false} SplitNoComma(s: string)
    requires ',' !in s
    ensures Split(s) == [s]
  {
    if s != [] {
      assert s[0] in s;
      assert forall c :: c in s[1..] ==> c in s;
      SplitNoComma(s[1..]);
      assert [s[0]] + s[1..] == s;
    }
  }

  /** A comma-free prefix followed by a comma becomes the first piece. */
  lemma {:induction false} SplitAtComma(a: string, b: string)
    requires ',' !in a
    ensures Split(a + [','] + b) == [a] + Split(b)
  {
    if a == [] {
      assert a + [','] + b == [','] + b;
      assert ([','] + b)[1..] == b;
    } else {
      assert (a + [','] + b)[1..] == a[1..] + [','] + b;
      SplitAtComma(a[1..], b);
      assert [a[0]] + a[1..] == a;
    }
  }

  /** A clean tag is left as it is by strip. */
  lemma StripClean(t: string)
    requires t != [] && !IsSpace(t[0]) && !IsSpace(t[|t| - 1])
    ensures Strip(t) == t
  {
    assert LeadingSpaces(t) == 0;
    assert TrailingSpaces(t) == 0;
  }

  /** Stripping twice is the same as stripping once. */
  lemma StripIdempotent(s: string)
    ensures Strip(Strip(s)) == Strip(s)
  {
    if Strip(s) != [] {
      StripClean(Strip(s));
    }
  }

  lemma SplitTwoTags(x: string, y: string)
    requires CleanTag(x) && CleanTag(y)
    ensures Split(x + [',', ' '] + y) == [x, [' '] + y]
  {
    var spaced := [' '] + y;
    assert x + [',', ' '] + y == x + [','] + spaced;
    assert ',' !in spaced;
    SplitNoComma(spaced);
    SplitAtComma(x, spaced);
  }

  lemma StripLeadingBlank(y: string)
    requires CleanTag(y)
    ensures Strip([' '] + y) == y
  {
    var spaced := [' '] + y;
    assert LeadingSpaces(spaced) == 1 by {
      assert spaced[1..] == y;
    }
    assert TrailingSpaces(spaced) == 0;
  }

  lemma OnePieceTokens(x: string)
    requires CleanTag(x)
    ensures NonEmptyStripped([x]) == [x]
  {
    StripClean(x);
    NonEmptyStrippedPrefix([x], 0);
    SingletonPrefixes(x);
    AppendEmptyLeft([x]);
  }

  lemma TwoPieceTokens(x: string, y: string)
    requires CleanTag(x) && CleanTag(y)
    ensures NonEmptyStripped([x, [' '] + y]) == [x, y]
  {
    StripLeadingBlank(y);
    var pieces := [x, [' '] + y];
    PairPrefixes(x, [' '] + y);
    OnePieceTokens(x);
    NonEmptyStrippedPrefix(pieces, 1);
    AppendSingletons(x, y);
  }

  lemma TallyXYX(x: string, y: string)
    requires x != y
    ensures Tally([x, y, x]) == map[x := 2, y := 1]
  {
    TallySnoc([], x);
    assert [] + [x] == [x];
    TallySnoc([x], y);
    assert [x] + [y] == [x, y];
    TallySnoc([x, y], x);
    assert [x, y] + [x] == [x, y, x];
  }

  lemma FirstRecordTokens(r1: Record, x: string, y: string)
    requires CleanTag(x) && CleanTag(y)
    requires r1.symptoms == x + [',', ' '] + y
    ensures SymptomTokens([r1]) == [x, y]
  {
    SplitTwoTags(x, y);
    TwoPieceTokens(x, y);
    assert [r1][..0] == [];
  }

  lemma TwoRecordTokens(r1: Record, r2: Record, x: string, y: string)
    requires CleanTag(x) && CleanTag(y)
    requires r1.symptoms == x + [',', ' '] + y && r2.symptoms == x
    ensures SymptomTokens([r1, r2]) == [x, y, x]
  {
    var rs := [r1, r2];
    assert rs[..1] == [r1];
    assert SymptomTokens(rs) == SymptomTokens([r1]) + NonEmptyStripped(Split(x));
    FirstRecordTokens(r1, x, y);
    SplitNoComma(x);
    OnePieceTokens(x);
    assert NonEmptyStripped(Split(x)) == [x];
    AppendDisplay(x, y, x);
  }

  // Sequence facts stated generically, so that the solver does not reason about strings while proving them.

  lemma AppendDisplay<T>(a: T, b: T, c: T)
    ensures [a, b] + [c] == [a, b, c]
  {
  }

  lemma AppendSingletons<T>(a: T, b: T)
    ensures [a] + [b] == [a, b]
  {
  }

  lemma AppendAssoc<T>(a: seq<T>, b: seq<T>, c: seq<T>)
    ensures (a + b) + c == a + (b + c)
  {
  }

  lemma AppendEmpty<T>(a: seq<T>)
    ensures a + [] == a
  {
  }

  lemma AppendEmptyLeft<T>(a: seq<T>)
    ensures [] + a == a
  {
  }

  lemma TakeNone<T>(a: seq<T>)
    ensures a[..0] == []
  {
  }

  lemma TakeAll<T>(a: seq<T>)
    ensures a[..|a|] == a
  {
  }

  lemma SingletonPrefixes<T>(a: T)
    ensures [a][..0] == [] && [a][..1] == [a]
  {
  }

  lemma PairPrefixes<T>(a: T, b: T)
    ensures [a, b][..1] == [a] && [a, b][..2] == [a, b]
  {
  }

  /** Two records "x, y" and "x" with distinct clean tags give x twice and y once. */
  lemma TwoRecordTally(r1: Record, r2: Record, x: string, y: string)
    requires CleanTag(x) && CleanTag(y) && x != y
    requires r1.symptoms == x + [',', ' '] + y && r2.symptoms == x
    ensures Tally(SymptomTokens([r1, r2])) == map[x := 2, y := 1]
  {
    TwoRecordTokens(r1, r2, x, y);
    TallyXYX(x, y);
  }

  /** "cramps, fatigue" and "cramps" give cramps twice and fatigue once. */
  lemma SymptomExample(r1: Record, r2: Record)
    requires r1.symptoms == "cramps, fatigue" && r2.symptoms == "cramps"
    ensures Tally(SymptomTokens([r1, r2])) == map["cramps" := 2, "fatigue" := 1]
  {
    assert "cramps, fatigue" == "cramps" + [',', ' '] + "fatigue";
    TwoRecordTally(r1, r2, "cramps", "fatigue");
  }
}
