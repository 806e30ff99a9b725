// marshalSubjects: folds the subjects parsed from one message into one net
// karma delta per name, merging a mention "@name" with the plain "name".
module Subjects {

  /** One parsed occurrence of a name and the karma change attached to it. */
  datatype Subject = Subject(name: string, karma: int)

  /** The ledger name of a subject: a single leading '@' is dropped, except
      from the one-character name "@". */
  function ResolveName(name: string): (r: string)
    ensures r != name <==> |name| > 1 && name[0] == '@'
    ensures r != name ==> r == name[1..]
  {
    if |name| > 1 && name[0] == '@' then name[1..] else name
  }

  /** The ledger name is the name itself, or the name without its leading
      '@' when the name is longer than one character. */
  lemma ResolveNameDropsOneMention(name: string)
    ensures var r := ResolveName(name);
            && (r == name || (|name| > 1 && name[0] == '@' && "@" + r == name))
            && (|name| > 1 && name[0] == '@' <==> r != name)
  {
    if |name| > 1 && name[0] == '@' {
      assert "@" + name[1..] == name;
      assert |name[1..]| != |name|;
    }
  }

  /** "@alice" and "alice" resolve to the same name, a lone "@" stays "@",
      and only one '@' is dropped. */
  lemma MentionMerges(name: string)
    requires name != [] && name[0] != '@'
    ensures ResolveName("@" + name) == ResolveName(name) == name
    ensures ResolveName("@") == "@"
    ensures ResolveName("@@" + name) == "@" + name
  {
    assert ("@" + name)[1..] == name;
    assert ("@@" + name)[1..] == "@" + name;
  }

  /** The names the subjects resolve to. */
  ghost function ResolvedNames(subs: seq<Subject>): set<string>
  {
    set i | 0 <= i < |subs| :: ResolveName(subs[i].name)
  }

  /** The karma a subject contributes to `name`. */
  function Share(s: Subject, name: string): int
  {
    if ResolveName(s.name) == name then s.karma else 0
  }

  /** The total karma the subjects contribute to `name`. */
  ghost function SumFor(subs: seq<Subject>, name: string): int
  {
    if subs == [] then 0
    else SumFor(subs[..|subs| - 1], name) + Share(subs[|subs| - 1], name)
  }

  /** The net deltas of a message: every resolved name, with the sum of the
      karma of all subjects resolving to it. */
  ghost function NetDeltas(subs: seq<Subject>): map<string, int>
  {
    map n | n in ResolvedNames(subs) :: SumFor(subs, n)
  }

  /** marshalSubjects: the net delta of every name that occurs. */
  method MarshalSubjects(subs: seq<Subject>) returns (deltas: map<string, int>)
    ensures deltas.Keys == ResolvedNames(subs)
    ensures forall n :: n in deltas ==> deltas[n] == SumFor(subs, n)
    ensures deltas == NetDeltas(subs)
  {
    deltas := map[];
    var i := 0;
    while i < |subs|
      invariant 0 <= i <= |subs|
      invariant FoldedSoFar(deltas, subs, i)
    {
      var name := ResolveName(subs[i].name);
      var karma := if name in deltas then deltas[name] else 0;
      karma := karma + subs[i].karma;
      FoldOne(deltas, subs, i);
      deltas := deltas[name := karma];
      i := i + 1;
    }
    FoldedAll(deltas, subs);
  }

  /** The names of the first `i` subjects. */
  ghost function NamesBefore(subs: seq<Subject>, i: nat): set<string>
    requires i <= |subs|
  {
    set j | 0 <= j < i :: ResolveName(subs[j].name)
  }

  /** The karma the first `i` subjects give to `name`. */
  ghost function SumBefore(subs: seq<Subject>, i: nat, name: string): int
    requires i <= |subs|
  {
    if i == 0 then 0 else SumBefore(subs, i - 1, name) + Share(subs[i - 1], name)
  }

  /** The loop invariant of marshalSubjects: `deltas` holds the totals of
      the first `i` subjects. */
  ghost predicate FoldedSoFar(deltas: map<string, int>, subs: seq<Subject>, i: nat)
  {
    && i <= |subs|
    && deltas.Keys == NamesBefore(subs, i)
    && forall n :: n in deltas ==> deltas[n] == SumBefore(subs, i, n)
  }

  /** One turn of the loop of marshalSubjects. */
  lemma FoldOne(deltas: map<string, int>, subs: seq<Subject>, i: nat)
    requires i < |subs| && FoldedSoFar(deltas, subs, i)
    ensures var name := ResolveName(subs[i].name);
            FoldedSoFar(deltas[name := (if name in deltas then deltas[name] else 0) + subs[i].karma], subs, i + 1)
  {
    var name := ResolveName(subs[i].name);
    var next := deltas[name := (if name in deltas then deltas[name] else 0) + subs[i].karma];
    NamesBeforeNext(subs, i);
    if name !in deltas {
      SumBeforeAbsent(subs, i, name);
    }
    forall n | n in next ensures next[n] == SumBefore(subs, i + 1, n) {
      assert SumBefore(subs, i + 1, n) == SumBefore(subs, i, n) + Share(subs[i], n);
    }
  }

  lemma NamesBeforeNext(subs: seq<Subject>, i: nat)
    requires i < |subs|
    ensures NamesBefore(subs, i + 1) == NamesBefore(subs, i) + {ResolveName(subs[i].name)}
  {
  }

  lemma {:induction false} SumBeforeAbsent(subs: seq<Subject>, i: nat, name: string)
    requires i <= |subs| && name !in NamesBefore(subs, i)
    ensures SumBefore(subs, i, name) == 0
  {
    if i > 0 {
      assert NamesBefore(subs, i - 1) <= NamesBefore(subs, i);
      SumBeforeAbsent(subs, i - 1, name);
    }
  }

  lemma {:induction false} SumBeforeIsSumFor(subs: seq<Subject>, i: nat, name: string)
    requires i <= |subs|
    ensures SumBefore(subs, i, name) == SumFor(subs[..i], name)
  {
    if i > 0 {
      SumBeforeIsSumFor(subs, i - 1, name);
      assert subs[..i][..i - 1] == subs[..i - 1];
    }
  }

  /** After the last turn, the loop's map is the net deltas. */
  lemma FoldedAll(deltas: map<string, int>, subs: seq<Subject>)
    requires FoldedSoFar(deltas, subs, |subs|)
    ensures deltas.Keys == ResolvedNames(subs)
    ensures forall n :: n in deltas ==> deltas[n] == SumFor(subs, n)
    ensures deltas == NetDeltas(subs)
  {
    assert subs[..|subs|] == subs;
    forall n | n in deltas ensures deltas[n] == SumFor(subs, n) {
      SumBeforeIsSumFor(subs, |subs|, n);
    }
  }

  lemma {:induction false} SumForConcat(a: seq<Subject>, b: seq<Subject>, name: string)
    ensures SumFor(a + b, name) == SumFor(a, name) + SumFor(b, name)
  {
    if b != [] {
      assert (a + b)[..|a + b| - 1] == a + b[..|b| - 1];
      SumForConcat(a, b[..|b| - 1], name);
    } else {
      assert a + b == a;
    }
  }

  /** Reordering the subjects does not change any name's total. */
  lemma {:induction false} SumForPermutation(a: seq<Subject>, b: seq<Subject>, name: string)
    requires multiset(a) == multiset(b)
    ensures SumFor(a, name) == SumFor(b, name)
    decreases |a|
  {
    if a != [] {
      var x := a[|a| - 1];
      var init := a[..|a| - 1];
      assert a == init + [x];
      assert x in multiset(b);
      var j :| 0 <= j < |b| && b[j] == x;
      var rest := b[..j] + b[j + 1..];
      RemoveOne(b, j);
      assert multiset(init) == multiset(a) - multiset{x};
      SumForPermutation(init, rest, name);
      SumForRemove(b, j, name);
    } else {
      assert |b| == |multiset(b)| == 0;
    }
  }

  /** Taking out the subject at `j` takes one occurrence out of the multiset. */
  lemma RemoveOne(b: seq<Subject>, j: nat)
    requires j < |b|
    ensures multiset(b[..j] + b[j + 1..]) == multiset(b) - multiset{b[j]}
  {
    assert b == b[..j] + [b[j]] + b[j + 1..];
  }

  /** Taking out the subject at `j` takes its share out of the total. */
  lemma SumForRemove(b: seq<Subject>, j: nat, name: string)
    requires j < |b|
    ensures SumFor(b, name) == SumFor(b[..j] + b[j + 1..], name) + Share(b[j], name)
  {
    assert b == b[..j] + [b[j]] + b[j + 1..];
    SumForConcat(b[..j] + [b[j]], b[j + 1..], name);
    SumForConcat(b[..j], [b[j]], name);
    SumForConcat(b[..j], b[j + 1..], name);
    assert [b[j]][..0] == [];
  }

  /** The net deltas do not depend on the order the subjects came in: the
      same occurrences in any order yield the same map. */
  lemma NetDeltasPermutation(a: seq<Subject>, b: seq<Subject>)
    requires multiset(a) == multiset(b)
    ensures NetDeltas(a) == NetDeltas(b)
  {
    assert ResolvedNames(a) == ResolvedNames(b) by {
      forall n | n in ResolvedNames(a) ensures n in ResolvedNames(b) {
        var i :| 0 <= i < |a| && ResolveName(a[i].name) == n;
        assert a[i] in multiset(b);
        var j :| 0 <= j < |b| && b[j] == a[i];
      }
      forall n | n in ResolvedNames(b) ensures n in ResolvedNames(a) {
        var j :| 0 <= j < |b| && ResolveName(b[j].name) == n;
        assert b[j] in multiset(a);
        var i :| 0 <= i < |a| && a[i] == b[j];
      }
    }
    forall n | n in ResolvedNames(a) ensures SumFor(a, n) == SumFor(b, n) {
      SumForPermutation(a, b, n);
    }
  }

  /** A mention and a plain occurrence of the same name cancel out:
      "@alice++" with "alice--" nets to zero for alice. */
  lemma MentionAndNameCancel()
    ensures NetDeltas([Subject("@alice", 1), Subject("alice", -1)]) == map["alice" := 0]
  {
    var subs := [Subject("@alice", 1), Subject("alice", -1)];
    assert ResolveName("@alice") == "alice" by { assert "@alice"[1..] == "alice"; }
    assert ResolveName(subs[0].name) == "alice" && ResolveName(subs[1].name) == "alice";
    assert "alice" in ResolvedNames(subs);
    assert ResolvedNames(subs) == {"alice"};
    assert subs[..1] == [Subject("@alice", 1)];
    assert SumFor(subs, "alice") == 0;
  }
}
