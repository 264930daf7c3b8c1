/**
 * `AzureCosmosDbMemory.WithTags`: Kernel Memory tag filters turned into the WHERE clause
 * of a Cosmos DB SQL query and the parameters it refers to. Filters are OR'd; the
 * (tag, value) pairs inside one filter are AND'd; a pair whose value is null is skipped.
 */
module AzureCosmosDbMemory {
  import opened Wrappers
  import opened Text
  import Record = AzureCosmosDbMemoryRecord

  /** A tag name and a nullable tag value. */
  type Pair = (string, Option<string>)

  /** A `MemoryFilter`, seen through its `Pairs`: one entry per (tag, value), in order. */
  datatype MemoryFilter = MemoryFilter(pairs: seq<Pair>)

  /** A query parameter: its name and its (non-null) value. */
  datatype Parameter = Parameter(name: string, value: string)

  /** The name of the parameter for pair `j` of filter `i`. */
  function ParamName(i: nat, j: nat): string {
    "@filter_" + NatToString(i) + "_" + NatToString(j) + "_value"
  }

  /** The predicate for one tag: the alias and the tag name are inserted verbatim. */
  function Term(alias: string, key: string, name: string): string {
    "ARRAY_CONTAINS(" + alias + "." + Record.TagsField + "." + key + ", " + name + ")"
  }

  // ----- What the builder appends, stated over prefixes (the order the loops run in) -----

  /**
   * The text appended for pair `j` of filter `i`: nothing for a null value; otherwise the
   * term, after ` AND ` whenever `j > 0`, whether or not an earlier pair was emitted.
   */
  function PairText(alias: string, i: nat, j: nat, p: Pair): string {
    if p.1.None? then "" else (if j > 0 then " AND " else "") + Term(alias, p.0, ParamName(i, j))
  }

  /** The text appended for the pairs `ps` of filter `i`. */
  function GroupText(alias: string, i: nat, ps: seq<Pair>): string {
    if ps == [] then ""
    else GroupText(alias, i, ps[..|ps| - 1]) + PairText(alias, i, |ps| - 1, ps[|ps| - 1])
  }

  /** The text between `WHERE ( ` and ` )` for the filters `fs`: their groups, OR'd. */
  function ClauseBody(alias: string, fs: seq<MemoryFilter>): string {
    if fs == [] then ""
    else
      var i := |fs| - 1;
      ClauseBody(alias, fs[..i]) + (if i > 0 then " OR " else "") + GroupText(alias, i, fs[i].pairs)
  }

  /** The parameters for the pairs `ps` of filter `i`. */
  function GroupParams(i: nat, ps: seq<Pair>): seq<Parameter> {
    if ps == [] then []
    else
      var j := |ps| - 1;
      GroupParams(i, ps[..j]) + (if ps[j].1.Some? then [Parameter(ParamName(i, j), ps[j].1.value)] else [])
  }

  /** The parameters for the filters `fs`. */
  function ParamsOf(fs: seq<MemoryFilter>): seq<Parameter> {
    if fs == [] then [] else ParamsOf(fs[..|fs| - 1]) + GroupParams(|fs| - 1, fs[|fs| - 1].pairs)
  }

  /** The clause `WithTags` returns. */
  function WhereClause(alias: string, filters: Option<seq<MemoryFilter>>): string {
    if filters == None || filters == Some([]) then "" else "WHERE ( " + ClauseBody(alias, filters.value) + " )"
  }

  /** The parameters `WithTags` returns. */
  function Parameters(filters: Option<seq<MemoryFilter>>): seq<Parameter> {
    if filters == None then [] else ParamsOf(filters.value)
  }

  lemma GroupStep(alias: string, i: nat, ps: seq<Pair>, j: nat)
    requires j < |ps|
    ensures GroupText(alias, i, ps[..j + 1]) == GroupText(alias, i, ps[..j]) + PairText(alias, i, j, ps[j])
    ensures GroupParams(i, ps[..j + 1]) ==
      GroupParams(i, ps[..j]) + (if ps[j].1.Some? then [Parameter(ParamName(i, j), ps[j].1.value)] else [])
  {
    assert ps[..j + 1][..j] == ps[..j];
  }

  lemma ClauseStep(alias: string, fs: seq<MemoryFilter>, i: nat)
    requires i < |fs|
    ensures ClauseBody(alias, fs[..i + 1]) ==
      ClauseBody(alias, fs[..i]) + (if i > 0 then " OR " else "") + GroupText(alias, i, fs[i].pairs)
    ensures ParamsOf(fs[..i + 1]) == ParamsOf(fs[..i]) + GroupParams(i, fs[i].pairs)
  {
    assert fs[..i + 1][..i] == fs[..i];
  }

  lemma AppendAssoc(a: string, b: string, c: string)
    ensures a + b + c == a + (b + c)
  {
  }

  /** What the two appends for a non-null pair add up to. */
  lemma PairTextPieces(prev: string, alias: string, i: nat, j: nat, p: Pair, text: string)
    requires p.1.Some?
    requires text == (if j > 0 then prev + " AND " else prev) + Term(alias, p.0, ParamName(i, j))
    ensures text == prev + PairText(alias, i, j, p)
  {
  }

  /** The inner loop of `WithTags`: appends the terms for filter `i` and collects its parameters. */
  method AppendGroup(builder: string, alias: string, i: nat, pairs: seq<Pair>) returns (text: string, params: seq<Parameter>)
    ensures text == builder + GroupText(alias, i, pairs)
    ensures params == GroupParams(i, pairs)
  {
    text, params := builder, [];
    var j := 0;
    while j < |pairs|
      invariant 0 <= j <= |pairs|
      invariant text == builder + GroupText(alias, i, pairs[..j])
      invariant params == GroupParams(i, pairs[..j])
    {
      var (key, value) := pairs[j];
      GroupStep(alias, i, pairs, j);
      ghost var prev := text;
      if value.None? {
        j := j + 1;
        continue;
      }
      if j > 0 {
        text := text + " AND ";
      }
      var name := ParamName(i, j);
      text := text + Term(alias, key, name);
      params := params + [Parameter(name, value.value)];
      PairTextPieces(prev, alias, i, j, pairs[j], text);
      AppendAssoc(builder, GroupText(alias, i, pairs[..j]), PairText(alias, i, j, pairs[j]));
      j := j + 1;
    }
    assert pairs[..j] == pairs;
  }

  /** `WithTags(alias, filters)`. */
  method WithTags(alias: string, filters: Option<seq<MemoryFilter>>) returns (clause: string, parameters: seq<Parameter>)
    ensures clause == WhereClause(alias, filters)
    ensures parameters == Parameters(filters)
    ensures (filters == None || filters == Some([])) ==> clause == "" && parameters == []
  {
    if filters == None || |filters.value| == 0 {
      return "", [];
    }
    var fs := filters.value;
    parameters := [];
    var builder := "WHERE ( ";
    var i := 0;
    while i < |fs|
      invariant 0 <= i <= |fs|
      invariant builder == "WHERE ( " + ClauseBody(alias, fs[..i])
      invariant parameters == ParamsOf(fs[..i])
    {
      if i > 0 {
        builder := builder + " OR ";
      }
      var groupParams;
      builder, groupParams := AppendGroup(builder, alias, i, fs[i].pairs);
      parameters := parameters + groupParams;
      assert builder == "WHERE ( " + ClauseBody(alias, fs[..i + 1]) && parameters == ParamsOf(fs[..i + 1]) by {
        ClauseStep(alias, fs, i);
        var sep := if i > 0 then " OR " else "";
        AppendAssoc("WHERE ( " + ClauseBody(alias, fs[..i]), sep, GroupText(alias, i, fs[i].pairs));
        AppendAssoc("WHERE ( ", ClauseBody(alias, fs[..i]) + sep, GroupText(alias, i, fs[i].pairs));
        AppendAssoc("WHERE ( ", ClauseBody(alias, fs[..i]), sep);
      }
      i := i + 1;
    }
    assert fs[..i] == fs;
    clause := builder + " )";
  }

  // ----- Parameter names -----

  /** Different (filter, pair) positions get different parameter names. */
  lemma ParamNameInjective(i: nat, j: nat, i2: nat, j2: nat)
    requires ParamName(i, j) == ParamName(i2, j2)
    ensures i == i2 && j == j2
  {
    var a, b := NatToString(i), NatToString(j);
    var a2, b2 := NatToString(i2), NatToString(j2);
    ParamNameAfterPrefix(i, j);
    ParamNameAfterPrefix(i2, j2);
    SplitAfterDigits(a, "_" + b + "_value", a2, "_" + b2 + "_value");
    DigitsBeforeValue(b, b2);
    NatToStringInjective(i, i2);
    NatToStringInjective(j, j2);
  }

  lemma ParamNameAfterPrefix(i: nat, j: nat)
    ensures ParamName(i, j)[8..] == NatToString(i) + ("_" + NatToString(j) + "_value")
  {
  }

  lemma DigitsBeforeValue(b: string, b2: string)
    requires AllDigits(b) && AllDigits(b2)
    requires "_" + b + "_value" == "_" + b2 + "_value"
    ensures b == b2
  {
    assert b + "_value" == ("_" + b + "_value")[1..];
    assert b2 + "_value" == ("_" + b2 + "_value")[1..];
    SplitAfterDigits(b, "_value", b2, "_value");
  }

  // ----- Which pairs emit a parameter: an index-level account -----

  /** Position `a` comes strictly before position `b` in (filter, pair) order. */
  predicate Before(a: (nat, nat), b: (nat, nat)) {
    a.0 < b.0 || (a.0 == b.0 && a.1 < b.1)
  }

  /** The positions `(i, j)` of the non-null pairs of filter `i`, in order. */
  function GroupSlots(i: nat, ps: seq<Pair>): seq<(nat, nat)> {
    if ps == [] then []
    else
      var j := |ps| - 1;
      GroupSlots(i, ps[..j]) + (if ps[j].1.Some? then [(i, j)] else [])
  }

  /** The positions of the non-null pairs of all filters, in order. */
  function Slots(fs: seq<MemoryFilter>): seq<(nat, nat)> {
    if fs == [] then [] else Slots(fs[..|fs| - 1]) + GroupSlots(|fs| - 1, fs[|fs| - 1].pairs)
  }

  /** The position `s` names a non-null pair of `fs`, and `p` is the parameter for it. */
  predicate ParameterFor(fs: seq<MemoryFilter>, s: (nat, nat), p: Parameter) {
    s.0 < |fs| && s.1 < |fs[s.0].pairs| && fs[s.0].pairs[s.1].1.Some? &&
    p == Parameter(ParamName(s.0, s.1), fs[s.0].pairs[s.1].1.value)
  }

  lemma {:induction false} GroupSlotsSound(i: nat, ps: seq<Pair>)
    ensures |GroupSlots(i, ps)| == |GroupParams(i, ps)|
    ensures forall k :: 0 <= k < |GroupSlots(i, ps)| ==>
      GroupSlots(i, ps)[k].0 == i && GroupSlots(i, ps)[k].1 < |ps| &&
      ps[GroupSlots(i, ps)[k].1].1.Some? &&
      GroupParams(i, ps)[k] == Parameter(ParamName(i, GroupSlots(i, ps)[k].1), ps[GroupSlots(i, ps)[k].1].1.value)
    ensures forall k, l :: 0 <= k < l < |GroupSlots(i, ps)| ==> GroupSlots(i, ps)[k].1 < GroupSlots(i, ps)[l].1
  {
    if ps != [] {
      var j := |ps| - 1;
      GroupSlotsSound(i, ps[..j]);
    }
  }

  lemma {:induction false} GroupSlotsComplete(i: nat, ps: seq<Pair>, j: nat)
    requires j < |ps| && ps[j].1.Some?
    ensures (i, j) in GroupSlots(i, ps)
  {
    var last := |ps| - 1;
    if j < last {
      assert ps[..last][j] == ps[j];
      GroupSlotsComplete(i, ps[..last], j);
    }
  }

  /**
   * The k-th parameter is the one for the k-th non-null position, and those positions
   * strictly increase in (filter, pair) order.
   */
  lemma SlotsSound(fs: seq<MemoryFilter>)
    ensures |Slots(fs)| == |ParamsOf(fs)|
    ensures forall k :: 0 <= k < |Slots(fs)| ==> ParameterFor(fs, Slots(fs)[k], ParamsOf(fs)[k])
    ensures forall k, l :: 0 <= k < l < |Slots(fs)| ==> Before(Slots(fs)[k], Slots(fs)[l])
  {
    SlotsParameters(fs);
    SlotsOrdered(fs);
  }

  lemma {:induction false} SlotsParameters(fs: seq<MemoryFilter>)
    ensures |Slots(fs)| == |ParamsOf(fs)|
    ensures forall k :: 0 <= k < |Slots(fs)| ==> ParameterFor(fs, Slots(fs)[k], ParamsOf(fs)[k])
  {
    if fs != [] {
      var n := |fs| - 1;
      var init := fs[..n];
      SlotsParameters(init);
      GroupSlotsSound(n, fs[n].pairs);
      var a, g := Slots(init), GroupSlots(n, fs[n].pairs);
      var ps, gp := ParamsOf(init), GroupParams(n, fs[n].pairs);
      assert Slots(fs) == a + g;
      assert ParamsOf(fs) == ps + gp;
      forall k | 0 <= k < |a| + |g|
        ensures ParameterFor(fs, (a + g)[k], (ps + gp)[k])
      {
        if k < |a| {
          assert ParameterFor(init, a[k], ps[k]);
          assert fs[a[k].0] == init[a[k].0];
        } else {
          assert (a + g)[k] == g[k - |a|] && (ps + gp)[k] == gp[k - |a|];
        }
      }
    }
  }

  lemma {:induction false} SlotsOrdered(fs: seq<MemoryFilter>)
    ensures forall k :: 0 <= k < |Slots(fs)| ==> Slots(fs)[k].0 < |fs|
    ensures forall k, l :: 0 <= k < l < |Slots(fs)| ==> Before(Slots(fs)[k], Slots(fs)[l])
  {
    if fs != [] {
      var n := |fs| - 1;
      var init := fs[..n];
      SlotsOrdered(init);
      GroupSlotsSound(n, fs[n].pairs);
      var a, g := Slots(init), GroupSlots(n, fs[n].pairs);
      assert Slots(fs) == a + g;
      var all: seq<(nat, nat)> := a + g;
      forall k: int | 0 <= k < |all| ensures all[k].0 < |fs| {
        if k >= |a| { assert all[k] == g[k - |a|]; }
      }
      forall k, l | 0 <= k < l < |a| + |g|
        ensures Before((a + g)[k], (a + g)[l])
      {
        if l < |a| {
          assert (a + g)[k] == a[k] && (a + g)[l] == a[l];
        } else if k < |a| {
          assert (a + g)[k] == a[k] && (a + g)[l] == g[l - |a|];
        } else {
          assert (a + g)[k] == g[k - |a|] && (a + g)[l] == g[l - |a|];
        }
      }
    }
  }

  /** Every non-null pair has its position among the slots. */
  lemma {:induction false} SlotsComplete(fs: seq<MemoryFilter>, i: nat, j: nat)
    requires i < |fs| && j < |fs[i].pairs| && fs[i].pairs[j].1.Some?
    ensures (i, j) in Slots(fs)
  {
    var n := |fs| - 1;
    if i == n {
      GroupSlotsComplete(i, fs[i].pairs, j);
    } else {
      assert fs[..n][i] == fs[i];
      SlotsComplete(fs[..n], i, j);
    }
  }

  /**
   * A parameter named for position (i, j) with value v is emitted exactly when pair j of
   * filter i exists and has the non-null value v.
   */
  lemma ParameterEmittedIff(filters: Option<seq<MemoryFilter>>, i: nat, j: nat, v: string)
    ensures Parameter(ParamName(i, j), v) in Parameters(filters) <==>
      filters.Some? && i < |filters.value| && j < |filters.value[i].pairs| && filters.value[i].pairs[j].1 == Some(v)
  {
    if filters.Some? {
      var fs := filters.value;
      SlotsSound(fs);
      if Parameter(ParamName(i, j), v) in ParamsOf(fs) {
        var k :| 0 <= k < |ParamsOf(fs)| && ParamsOf(fs)[k] == Parameter(ParamName(i, j), v);
        var s := Slots(fs)[k];
        assert ParameterFor(fs, s, ParamsOf(fs)[k]);
        ParamNameInjective(i, j, s.0, s.1);
      }
      if i < |fs| && j < |fs[i].pairs| && fs[i].pairs[j].1 == Some(v) {
        SlotsComplete(fs, i, j);
        var k :| 0 <= k < |Slots(fs)| && Slots(fs)[k] == (i, j);
        assert ParameterFor(fs, Slots(fs)[k], ParamsOf(fs)[k]);
      }
    }
  }

  /** The parameters come in strictly increasing (filter, pair) order, so their names are pairwise distinct. */
  lemma ParametersOrderedDistinct(filters: Option<seq<MemoryFilter>>, k: nat, l: nat)
    requires k < l < |Parameters(filters)|
    ensures Parameters(filters)[k].name != Parameters(filters)[l].name
    ensures exists a, b :: ParameterFor(filters.value, a, Parameters(filters)[k]) &&
                          ParameterFor(filters.value, b, Parameters(filters)[l]) && Before(a, b)
  {
    var fs := filters.value;
    SlotsSound(fs);
    var a, b := Slots(fs)[k], Slots(fs)[l];
    assert ParameterFor(fs, a, ParamsOf(fs)[k]) && ParameterFor(fs, b, ParamsOf(fs)[l]) && Before(a, b);
    if ParamsOf(fs)[k].name == ParamsOf(fs)[l].name {
      ParamNameInjective(a.0, a.1, b.0, b.1);
    }
  }

  // ----- How many parameters -----

  /** The number of pairs of `ps` with a non-null value, counted from the front. */
  function CountSome(ps: seq<Pair>): nat {
    if ps == [] then 0 else (if ps[0].1.Some? then 1 else 0) + CountSome(ps[1..])
  }

  /** The number of non-null pairs over all filters, counted from the front. */
  function TotalSome(fs: seq<MemoryFilter>): nat {
    if fs == [] then 0 else CountSome(fs[0].pairs) + TotalSome(fs[1..])
  }

  lemma {:induction false} CountSomeSnoc(ps: seq<Pair>, p: Pair)
    ensures CountSome(ps + [p]) == CountSome(ps) + (if p.1.Some? then 1 else 0)
  {
    if ps != [] {
      assert (ps + [p])[1..] == ps[1..] + [p];
      CountSomeSnoc(ps[1..], p);
    }
  }

  lemma {:induction false} TotalSomeSnoc(fs: seq<MemoryFilter>, f: MemoryFilter)
    ensures TotalSome(fs + [f]) == TotalSome(fs) + CountSome(f.pairs)
  {
    if fs != [] {
      assert (fs + [f])[1..] == fs[1..] + [f];
      TotalSomeSnoc(fs[1..], f);
    }
  }

  lemma {:induction false} GroupParamsCount(i: nat, ps: seq<Pair>)
    ensures |GroupParams(i, ps)| == CountSome(ps)
  {
    if ps != [] {
      var j := |ps| - 1;
      GroupParamsCount(i, ps[..j]);
      CountSomeSnoc(ps[..j], ps[j]);
      assert ps[..j] + [ps[j]] == ps;
    }
  }

  lemma {:induction false} ParamsOfCount(fs: seq<MemoryFilter>)
    ensures |ParamsOf(fs)| == TotalSome(fs)
  {
    if fs != [] {
      var n := |fs| - 1;
      ParamsOfCount(fs[..n]);
      GroupParamsCount(n, fs[n].pairs);
      TotalSomeSnoc(fs[..n], fs[n]);
      assert fs[..n] + [fs[n]] == fs;
    }
  }

  /** One parameter per non-null pair, over all filters; null pairs add none. */
  lemma ParameterCount(filters: Option<seq<MemoryFilter>>)
    ensures |Parameters(filters)| == if filters == None then 0 else TotalSome(filters.value)
  {
    if filters.Some? {
      ParamsOfCount(filters.value);
    }
  }

  // ----- The text of the clause -----

  /** A non-empty filter list gives `WHERE ( ` ... ` )`. */
  lemma WhereClauseBrackets(alias: string, fs: seq<MemoryFilter>)
    requires fs != []
    ensures var c := WhereClause(alias, Some(fs));
      |c| >= 10 && c[..8] == "WHERE ( " && c[|c| - 2..] == " )"
  {
  }

  /** The groups' texts joined with ` OR `: one separator between neighbouring filters. */
  function JoinOr(gs: seq<string>): string {
    if |gs| == 0 then "" else if |gs| == 1 then gs[0] else gs[0] + " OR " + JoinOr(gs[1..])
  }

  /** The text each filter contributes, whether or not it emits any term, in filter order. */
  function GroupTexts(alias: string, fs: seq<MemoryFilter>): (gs: seq<string>)
    ensures |gs| == |fs|
  {
    if fs == [] then []
    else
      var n := |fs| - 1;
      GroupTexts(alias, fs[..n]) + [GroupText(alias, n, fs[n].pairs)]
  }

  /** The k-th entry is the text of filter k. */
  lemma {:induction false} GroupTextsAt(alias: string, fs: seq<MemoryFilter>, k: nat)
    requires k < |fs|
    ensures GroupTexts(alias, fs)[k] == GroupText(alias, k, fs[k].pairs)
  {
    var n := |fs| - 1;
    var init := GroupTexts(alias, fs[..n]);
    var last := GroupText(alias, n, fs[n].pairs);
    assert GroupTexts(alias, fs) == init + [last];
    if k < n {
      assert init[k] == GroupText(alias, k, fs[k].pairs) by {
        GroupTextsAt(alias, fs[..n], k);
        assert fs[..n][k] == fs[k];
      }
      assert (init + [last])[k] == init[k];
    } else {
      assert (init + [last])[k] == last;
    }
  }

  lemma {:induction false} JoinOrSnoc(gs: seq<string>, g: string)
    ensures JoinOr(gs + [g]) == if gs == [] then g else JoinOr(gs) + " OR " + g
  {
    if |gs| >= 2 {
      assert (gs + [g])[1..] == gs[1..] + [g];
      JoinOrSnoc(gs[1..], g);
    } else if |gs| == 1 {
      assert (gs + [g])[1..] == [g];
    }
  }

  /**
   * The clause body is the filters' groups joined with ` OR `: exactly `|fs| - 1`
   * separators, an empty group (all values null) still being separated.
   */
  lemma {:induction false} ClauseBodyJoin(alias: string, fs: seq<MemoryFilter>)
    ensures ClauseBody(alias, fs) == JoinOr(GroupTexts(alias, fs))
  {
    if fs != [] {
      var n := |fs| - 1;
      var before, last := GroupTexts(alias, fs[..n]), GroupText(alias, n, fs[n].pairs);
      ClauseBodyJoin(alias, fs[..n]);
      JoinOrSnoc(before, last);
      assert ClauseBody(alias, fs) == ClauseBody(alias, fs[..n]) + (if n > 0 then " OR " else "") + last;
    }
  }

  /** A group's text is empty exactly when every value in it is null. */
  lemma {:induction false} GroupTextEmptyIff(alias: string, i: nat, ps: seq<Pair>)
    ensures GroupText(alias, i, ps) == "" <==> forall k :: 0 <= k < |ps| ==> ps[k].1.None?
  {
    if ps != [] {
      var j := |ps| - 1;
      GroupTextEmptyIff(alias, i, ps[..j]);
      assert forall k :: 0 <= k < j ==> ps[..j][k] == ps[k];
      if ps[j].1.Some? {
        assert |PairText(alias, i, j, ps[j])| > 0;
      }
    }
  }

  lemma {:induction false} GroupTextPrefix(alias: string, i: nat, ps: seq<Pair>, m: nat)
    requires m <= |ps|
    ensures GroupText(alias, i, ps[..m]) <= GroupText(alias, i, ps)
  {
    if m < |ps| {
      var j := |ps| - 1;
      assert GroupText(alias, i, ps[..m]) <= GroupText(alias, i, ps[..j]) by {
        assert ps[..j][..m] == ps[..m];
        GroupTextPrefix(alias, i, ps[..j], m);
      }
      PrefixOfLonger(GroupText(alias, i, ps[..m]), GroupText(alias, i, ps[..j]), PairText(alias, i, j, ps[j]));
    } else {
      assert ps[..m] == ps;
    }
  }

  lemma PrefixOfLonger(a: string, b: string, c: string)
    requires a <= b
    ensures a <= b + c
  {
    assert (b + c)[..|a|] == b[..|a|];
  }

  /**
   * The quirk of the source: whether ` AND ` precedes a term depends only on its index
   * `j`. A group whose first non-null pair is at `j > 0` starts with ` AND `, which leaves
   * `( AND ` or `OR  AND ` in the clause; one whose first non-null pair is pair 0 starts
   * with the term itself.
   */
  lemma GroupTextFirstTerm(alias: string, i: nat, ps: seq<Pair>, j: nat)
    requires j < |ps| && ps[j].1.Some?
    requires forall k :: 0 <= k < j ==> ps[k].1.None?
    ensures PairText(alias, i, j, ps[j]) <= GroupText(alias, i, ps)
    ensures j > 0 ==> " AND " + Term(alias, ps[j].0, ParamName(i, j)) <= GroupText(alias, i, ps)
    ensures j == 0 ==> Term(alias, ps[j].0, ParamName(i, j)) <= GroupText(alias, i, ps)
  {
    var upTo := ps[..j + 1];
    assert upTo[..j] == ps[..j] && upTo[j] == ps[j];
    assert GroupText(alias, i, ps[..j]) == "" by {
      assert forall k :: 0 <= k < j ==> ps[..j][k].1.None?;
      GroupTextEmptyIff(alias, i, ps[..j]);
    }
    assert GroupText(alias, i, upTo) == PairText(alias, i, j, ps[j]);
    assert GroupText(alias, i, upTo) <= GroupText(alias, i, ps) by {
      GroupTextPrefix(alias, i, ps, j + 1);
    }
  }

  // ----- Every parameter is referred to -----

  lemma ContainsAppend(s: string, t: string, a: string)
    requires Contains(s, t)
    ensures Contains(s + a, t) && Contains(a + s, t)
  {
    ContainsExtend(s, t, "", a);
    assert "" + s + a == s + a;
    ContainsExtend(s, t, a, "");
    assert a + s + "" == a + s;
  }

  lemma TermContainsName(alias: string, key: string, name: string)
    ensures Contains(Term(alias, key, name), name)
  {
    ContainsSelf(name);
    ContainsExtend(name, name, "ARRAY_CONTAINS(" + alias + "." + Record.TagsField + "." + key + ", ", ")");
  }

  lemma {:induction false} GroupTextContainsName(alias: string, i: nat, ps: seq<Pair>, j: nat)
    requires j < |ps| && ps[j].1.Some?
    ensures Contains(GroupText(alias, i, ps), ParamName(i, j))
  {
    var last := |ps| - 1;
    if j == last {
      TermContainsName(alias, ps[j].0, ParamName(i, j));
      var sep := if j > 0 then " AND " else "";
      ContainsAppend(Term(alias, ps[j].0, ParamName(i, j)), ParamName(i, j), sep);
      ContainsAppend(PairText(alias, i, j, ps[j]), ParamName(i, j), GroupText(alias, i, ps[..last]));
    } else {
      assert ps[..last][j] == ps[j];
      GroupTextContainsName(alias, i, ps[..last], j);
      ContainsAppend(GroupText(alias, i, ps[..last]), ParamName(i, j), PairText(alias, i, last, ps[last]));
    }
  }

  lemma {:induction false} ClauseBodyContainsName(alias: string, fs: seq<MemoryFilter>, i: nat, j: nat)
    requires i < |fs| && j < |fs[i].pairs| && fs[i].pairs[j].1.Some?
    ensures Contains(ClauseBody(alias, fs), ParamName(i, j))
  {
    var n := |fs| - 1;
    var sep := if n > 0 then " OR " else "";
    if i == n {
      GroupTextContainsName(alias, i, fs[i].pairs, j);
      ContainsAppend(GroupText(alias, n, fs[n].pairs), ParamName(i, j), ClauseBody(alias, fs[..n]) + sep);
    } else {
      assert fs[..n][i] == fs[i];
      ClauseBodyContainsName(alias, fs[..n], i, j);
      ContainsAppend(ClauseBody(alias, fs[..n]), ParamName(i, j), sep + GroupText(alias, n, fs[n].pairs));
      assert ClauseBody(alias, fs[..n]) + (sep + GroupText(alias, n, fs[n].pairs)) == ClauseBody(alias, fs);
    }
  }

  /** Every parameter's name occurs in the clause. */
  lemma ParameterNamedInClause(alias: string, filters: Option<seq<MemoryFilter>>, k: nat)
    requires k < |Parameters(filters)|
    ensures Contains(WhereClause(alias, filters), Parameters(filters)[k].name)
  {
    var fs := filters.value;
    SlotsSound(fs);
    var s := Slots(fs)[k];
    assert ParameterFor(fs, s, ParamsOf(fs)[k]);
    ClauseBodyContainsName(alias, fs, s.0, s.1);
    ContainsExtend(ClauseBody(alias, fs), ParamName(s.0, s.1), "WHERE ( ", " )");
  }
}
