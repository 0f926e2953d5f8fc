// The two aggregation operators: Aggregate keeps a list of groups
// (internal/SQL/EX/aggregate.go), HashAggregate a map of buckets
// (internal/SQL/EX/hashagg.go).  Both are proved against one reference, grouping by a
// notion of same key, which is then shown to be the same notion for plain keys.
module Aggregates {
  import opened Bytes
  import opened Codec
  import opened Grouping

  datatype Group<R> = Group(key: seq<Value>, rows: seq<R>)
  datatype OutRow = OutRow(key: seq<Value>, aggregates: seq<Value>)

  // What the operators are given: the group columns of a row, with the statement's
  // parameters and without any; the aggregates of a group; the conversion of integers
  // that compare uses; the stable sort, which sees nothing but its comparisons.
  datatype Env<!R> = Env(
    columns: nat,
    eval: R -> Option<seq<Value>>,
    evalNil: R -> seq<Value>,
    aggregate: seq<R> -> Option<seq<Value>>,
    toFloat: ToFloat,
    sorter: seq<seq<bool>> -> seq<nat>)

  ghost predicate Fits<R(!new)>(env: Env<R>) {
    && (forall r :: env.eval(r).Some? ==> |env.eval(r).value| == env.columns)
    && (forall r :: |env.evalNil(r)| == env.columns)
    && (forall table :: |env.sorter(table)| == |table|)
    && (forall table, i :: 0 <= i < |env.sorter(table)| ==> env.sorter(table)[i] < |table|)
  }

  // ---------------------------------------------------------------- grouping

  // How the group of a key is found.
  datatype Way = ByHash | ByList(toFloat: ToFloat)

  predicate Same(a: seq<Value>, b: seq<Value>, way: Way) {
    match way
    case ByHash => DistinctKey(a) == DistinctKey(b)
    case ByList(toFloat) => KeysEqual(a, b, toFloat)
  }

  function FindGroup<R>(groups: seq<Group<R>>, key: seq<Value>, way: Way): (i: nat)
    ensures i <= |groups|
    ensures i < |groups| ==> Same(groups[i].key, key, way)
    ensures forall j :: 0 <= j < i ==> !Same(groups[j].key, key, way)
  {
    if groups == [] || Same(groups[0].key, key, way) then 0 else 1 + FindGroup(groups[1..], key, way)
  }

  // The row joins the first group with the same key, or opens one.
  function AddRow<R>(groups: seq<Group<R>>, key: seq<Value>, row: R, way: Way): seq<Group<R>> {
    var i := FindGroup(groups, key, way);
    if i < |groups| then groups[i := groups[i].(rows := groups[i].rows + [row])] else groups + [Group(key, [row])]
  }

  function Groups<R>(rows: seq<R>, eval: R -> Option<seq<Value>>, way: Way): Option<seq<Group<R>>> {
    if rows == [] then Some([])
    else
      var n := |rows| - 1;
      match Groups(rows[..n], eval, way)
      case None => None
      case Some(groups) =>
        match eval(rows[n])
        case None => None
        case Some(key) => Some(AddRow(groups, key, rows[n], way))
  }

  // ---------------------------------------------------------------- output

  function Keys<R>(groups: seq<Group<R>>): (keys: seq<seq<Value>>)
    ensures |keys| == |groups| && forall i :: 0 <= i < |groups| ==> keys[i] == groups[i].key
  {
    seq(|groups|, i requires 0 <= i < |groups| => groups[i].key)
  }

  // The comparisons of the keys.
  function ListTable(keys: seq<seq<Value>>, toFloat: ToFloat): (table: seq<seq<bool>>)
    ensures |table| == |keys|
  {
    seq(|keys|, i requires 0 <= i < |keys| =>
      seq(|keys|, j requires 0 <= j < |keys| => KeysLess(keys[i], keys[j], toFloat)))
  }

  predicate HasRows<R>(groups: seq<Group<R>>) {
    forall i :: 0 <= i < |groups| ==> |groups[i].rows| > 0
  }

  // The first row of every group.
  function Firsts<R>(groups: seq<Group<R>>): (rows: seq<R>)
    requires HasRows(groups)
    ensures |rows| == |groups| && forall i :: 0 <= i < |groups| ==> rows[i] == groups[i].rows[0]
  {
    seq(|groups|, i requires 0 <= i < |groups| && |groups[i].rows| > 0 => groups[i].rows[0])
  }

  // The comparisons of the first rows, with the group columns evaluated anew.
  function HashTable<R>(firsts: seq<R>, env: Env<R>): (table: seq<seq<bool>>)
    ensures |table| == |firsts|
  {
    seq(|firsts|, i requires 0 <= i < |firsts| =>
      seq(|firsts|, j requires 0 <= j < |firsts| =>
        RowsLess(env.evalNil(firsts[i]), env.evalNil(firsts[j]), env.toFloat)))
  }

  // The rows in the order of the permutation; the first error of an aggregate ends it.
  function Output<R>(groups: seq<Group<R>>, order: seq<nat>,
                     aggregate: seq<R> -> Option<seq<Value>>): Option<seq<OutRow>>
    requires forall i :: 0 <= i < |order| ==> order[i] < |groups|
  {
    if order == [] then Some([])
    else
      var n := |order| - 1;
      match Output(groups, order[..n], aggregate)
      case None => None
      case Some(rows) =>
        match aggregate(groups[order[n]].rows)
        case None => None
        case Some(values) => Some(rows + [OutRow(groups[order[n]].key, values)])
  }

  function ListResult<R(!new)>(rows: seq<R>, env: Env<R>): Option<seq<OutRow>>
    requires Fits(env)
  {
    match Groups(rows, env.eval, ByList(env.toFloat))
    case None => None
    case Some(found) =>
      if found == [] && env.columns > 0 then Some([])
      else
        var groups := if found == [] then [Group([], [])] else found;
        Output(groups, env.sorter(ListTable(Keys(groups), env.toFloat)), env.aggregate)
  }

  lemma {:induction false} GroupsHaveRows<R(!new)>(rows: seq<R>, eval: R -> Option<seq<Value>>, way: Way)
    ensures var g := Groups(rows, eval, way);
            g.Some? ==>
              && HasRows(g.value) && (rows != [] ==> g.value != [])
              && (forall i :: 0 <= i < |g.value| ==>
                    eval(g.value[i].rows[0]) == Some(g.value[i].key) && g.value[i].rows[0] in rows)
  {
    if rows != [] {
      var n := |rows| - 1;
      GroupsHaveRows(rows[..n], eval, way);
      forall r | r in rows[..n] ensures r in rows { }
      assert rows[n] in rows;
    }
  }

  function HashResult<R(!new)>(rows: seq<R>, env: Env<R>): Option<seq<OutRow>>
    requires Fits(env)
  {
    match Groups(rows, env.eval, ByHash)
    case None => None
    case Some(groups) =>
      GroupsHaveRows(rows, env.eval, ByHash);
      Output(groups, env.sorter(HashTable(Firsts(groups), env)), env.aggregate)
  }

  // ---------------------------------------------------------------- what the groups are

  function Filter<R>(rows: seq<R>, f: R -> bool): seq<R> {
    if rows == [] then []
    else
      var n := |rows| - 1;
      Filter(rows[..n], f) + if f(rows[n]) then [rows[n]] else []
  }

  // keys[i] is the first of the keys that is the same as this one.
  predicate Belongs(keys: seq<seq<Value>>, i: nat, key: seq<Value>, way: Way)
    requires i < |keys|
  {
    Same(keys[i], key, way) && forall j :: 0 <= j < i ==> !Same(keys[j], key, way)
  }

  // The rows of the input that belong to keys[i], in their order.
  function RowsOf<R>(rows: seq<R>, eval: R -> Option<seq<Value>>, keys: seq<seq<Value>>, i: nat, way: Way): seq<R>
    requires i < |keys|
  {
    Filter(rows, r => eval(r).Some? && Belongs(keys, i, eval(r).value, way))
  }

  ghost predicate Evaluates<R>(rows: seq<R>, eval: R -> Option<seq<Value>>) {
    forall n :: 0 <= n < |rows| ==> eval(rows[n]).Some?
  }

  // The keys are the distinct keys of the rows, in the order of their first appearance:
  // keys[i] is the key of rows[firsts[i]], and every row has the key of a row not behind it.
  ghost predicate Distinct<R>(rows: seq<R>, eval: R -> Option<seq<Value>>, keys: seq<seq<Value>>, firsts: seq<nat>,
                              way: Way): (distinct: bool)
    ensures distinct ==> |firsts| == |keys| && forall i :: 0 <= i < |keys| ==> firsts[i] < |rows|
  {
    && |firsts| == |keys|
    && (forall i :: 0 <= i < |keys| ==> firsts[i] < |rows| && eval(rows[firsts[i]]) == Some(keys[i]))
    && (forall i, j :: 0 <= i < j < |keys| ==> firsts[i] < firsts[j] && !Same(keys[i], keys[j], way))
    && (forall n :: 0 <= n < |rows| ==> Seen(rows, eval, keys, firsts, n, way))
  }

  ghost predicate Seen<R>(rows: seq<R>, eval: R -> Option<seq<Value>>, keys: seq<seq<Value>>, firsts: seq<nat>,
                          n: nat, way: Way)
    requires n < |rows| && |firsts| == |keys|
  {
    && eval(rows[n]).Some?
    && exists i :: 0 <= i < |keys| && firsts[i] <= n && Same(keys[i], eval(rows[n]).value, way)
  }

  lemma {:induction false} FilterSame<R>(rows: seq<R>, f: R -> bool, g: R -> bool)
    requires forall n :: 0 <= n < |rows| ==> f(rows[n]) == g(rows[n])
    ensures Filter(rows, f) == Filter(rows, g)
  {
    if rows != [] { FilterSame(rows[..|rows| - 1], f, g); }
  }

  lemma {:induction false} FilterNone<R>(rows: seq<R>, f: R -> bool)
    requires forall n :: 0 <= n < |rows| ==> !f(rows[n])
    ensures Filter(rows, f) == []
  {
    if rows != [] { FilterNone(rows[..|rows| - 1], f); }
  }

  // The groups that were found are those of the distinct keys, with all rows of each.
  ghost predicate AreGroups<R>(groups: seq<Group<R>>, rows: seq<R>, eval: R -> Option<seq<Value>>,
                               firsts: seq<nat>, way: Way)
  {
    && Distinct(rows, eval, Keys(groups), firsts, way)
    && forall i :: 0 <= i < |groups| ==>
         groups[i].rows == RowsOf(rows, eval, Keys(groups), i, way)
         && groups[i].rows != [] && groups[i].rows[0] == rows[firsts[i]]
  }

  lemma {:induction false} GroupsMean<R>(rows: seq<R>, eval: R -> Option<seq<Value>>, way: Way)
    returns (firsts: seq<nat>)
    ensures Groups(rows, eval, way).Some? <==> Evaluates(rows, eval)
    ensures Groups(rows, eval, way).Some? ==> AreGroups(Groups(rows, eval, way).value, rows, eval, firsts, way)
  {
    hide Same, AreGroups, AddRow;
    firsts := [];
    if rows == [] {
      assert Groups(rows, eval, way) == Some([]);
      NoGroups(rows, eval, way);
    } else {
      var n := |rows| - 1;
      firsts := GroupsMean(rows[..n], eval, way);
      assert rows == rows[..n] + [rows[n]];
      if Groups(rows[..n], eval, way).Some? && eval(rows[n]).Some? {
        firsts := AddMeans(Groups(rows[..n], eval, way).value, rows, eval, firsts, way);
      }
    }
  }

  lemma NoGroups<R>(rows: seq<R>, eval: R -> Option<seq<Value>>, way: Way)
    requires rows == []
    ensures AreGroups([], rows, eval, [], way)
  {
  }

  lemma AddMeans<R>(groups: seq<Group<R>>, rows: seq<R>, eval: R -> Option<seq<Value>>, firsts: seq<nat>, way: Way)
    returns (firsts': seq<nat>)
    requires rows != [] && AreGroups(groups, rows[..|rows| - 1], eval, firsts, way) && eval(rows[|rows| - 1]).Some?
    ensures var n := |rows| - 1;
            AreGroups(AddRow(groups, eval(rows[n]).value, rows[n], way), rows, eval, firsts', way)
  {
    hide Same, AreGroups, AddRow;
    var n := |rows| - 1;
    var key := eval(rows[n]).value;
    var i := FindGroup(groups, key, way);
    if i < |groups| {
      firsts' := firsts;
      JoinMeans(groups, rows, eval, firsts, way);
    } else {
      firsts' := firsts + [n];
      OpenMeans(groups, rows, eval, firsts, way);
    }
  }

  // The row joins an old group.
  lemma JoinMeans<R>(groups: seq<Group<R>>, rows: seq<R>, eval: R -> Option<seq<Value>>, firsts: seq<nat>, way: Way)
    requires rows != [] && AreGroups(groups, rows[..|rows| - 1], eval, firsts, way) && eval(rows[|rows| - 1]).Some?
    requires FindGroup(groups, eval(rows[|rows| - 1]).value, way) < |groups|
    ensures var n := |rows| - 1;
            AreGroups(AddRow(groups, eval(rows[n]).value, rows[n], way), rows, eval, firsts, way)
  {
    hide Same, Distinct, RowsOf;
    var n := |rows| - 1;
    var key := eval(rows[n]).value;
    var at := FindGroup(groups, key, way);
    var groups' := AddRow(groups, key, rows[n], way);
    var keys := Keys(groups);
    assert Keys(groups') == keys;
    DistinctJoin(keys, at, rows, eval, firsts, way);
    forall i | 0 <= i < |groups|
      ensures groups'[i].rows == RowsOf(rows, eval, keys, i, way)
    {
      RowsMore(rows, eval, keys, i, way);
    }
  }

  lemma DistinctJoin<R>(keys: seq<seq<Value>>, at: nat, rows: seq<R>, eval: R -> Option<seq<Value>>,
                        firsts: seq<nat>, way: Way)
    requires rows != [] && eval(rows[|rows| - 1]).Some? && Distinct(rows[..|rows| - 1], eval, keys, firsts, way)
    requires at < |keys| && Same(keys[at], eval(rows[|rows| - 1]).value, way)
    ensures Distinct(rows, eval, keys, firsts, way)
  {
    hide Same;
    var n := |rows| - 1;
    forall m | 0 <= m < |rows| ensures Seen(rows, eval, keys, firsts, m, way) {
      if m < n { assert Seen(rows[..n], eval, keys, firsts, m, way); }
    }
  }

  lemma DistinctOpen<R>(keys: seq<seq<Value>>, rows: seq<R>, eval: R -> Option<seq<Value>>, firsts: seq<nat>, way: Way)
    requires rows != [] && eval(rows[|rows| - 1]).Some? && Distinct(rows[..|rows| - 1], eval, keys, firsts, way)
    requires forall i :: 0 <= i < |keys| ==> !Same(keys[i], eval(rows[|rows| - 1]).value, way)
    ensures Distinct(rows, eval, keys + [eval(rows[|rows| - 1]).value], firsts + [|rows| - 1], way)
  {
    hide Same;
    var n := |rows| - 1;
    var key := eval(rows[n]).value;
    var keys', firsts' := keys + [key], firsts + [n];
    forall m | 0 <= m < |rows| ensures Seen(rows, eval, keys', firsts', m, way) {
      if m < n {
        assert Seen(rows[..n], eval, keys, firsts, m, way);
        var i :| 0 <= i < |keys| && firsts[i] <= m && Same(keys[i], eval(rows[m]).value, way);
        assert firsts'[i] <= m && Same(keys'[i], eval(rows[m]).value, way);
      } else {
        SameSelf(key, way);
        assert firsts'[|keys|] <= m && Same(keys'[|keys|], key, way);
      }
    }
  }

  lemma SameSelf(key: seq<Value>, way: Way)
    ensures Same(key, key, way)
  {
  }

  lemma RowsMore<R>(rows: seq<R>, eval: R -> Option<seq<Value>>, keys: seq<seq<Value>>, i: nat, way: Way)
    requires rows != [] && i < |keys| && eval(rows[|rows| - 1]).Some?
    ensures var n := |rows| - 1;
            RowsOf(rows, eval, keys, i, way) ==
            RowsOf(rows[..n], eval, keys, i, way) + if Belongs(keys, i, eval(rows[n]).value, way) then [rows[n]] else []
  {
    hide Belongs;
  }

  // The row opens a group.
  lemma OpenMeans<R>(groups: seq<Group<R>>, rows: seq<R>, eval: R -> Option<seq<Value>>, firsts: seq<nat>, way: Way)
    requires rows != [] && AreGroups(groups, rows[..|rows| - 1], eval, firsts, way) && eval(rows[|rows| - 1]).Some?
    requires FindGroup(groups, eval(rows[|rows| - 1]).value, way) == |groups|
    ensures var n := |rows| - 1;
            AreGroups(AddRow(groups, eval(rows[n]).value, rows[n], way), rows, eval, firsts + [n], way)
  {
    hide Same, Distinct, RowsOf;
    var n := |rows| - 1;
    var key := eval(rows[n]).value;
    var groups' := AddRow(groups, key, rows[n], way);
    var keys := Keys(groups);
    var keys' := keys + [key];
    assert Keys(groups') == keys';
    DistinctOpen(keys, rows, eval, firsts, way);
    forall i | 0 <= i < |groups'|
      ensures groups'[i].rows == RowsOf(rows, eval, keys', i, way)
    {
      RowsMore(rows, eval, keys', i, way);
      if i < |groups| {
        assert keys'[i] == keys[i] && !Same(keys[i], key, way);
        RowsKept(rows[..n], eval, keys, key, i, way);
      } else {
        RowsNew(rows[..n], eval, keys, firsts, key, way);
        SameSelf(key, way);
        assert Belongs(keys', i, key, way);
      }
    }
  }

  // A new key takes no row from the old ones ...
  lemma RowsKept<R>(rows: seq<R>, eval: R -> Option<seq<Value>>, keys: seq<seq<Value>>, key: seq<Value>, i: nat,
                    way: Way)
    requires i < |keys|
    ensures RowsOf(rows, eval, keys + [key], i, way) == RowsOf(rows, eval, keys, i, way)
  {
    hide Same;
    var keys' := keys + [key];
    forall k ensures Belongs(keys', i, k, way) == Belongs(keys, i, k, way) {
      assert forall j :: 0 <= j <= i ==> keys'[j] == keys[j];
    }
    FilterSame(rows, r => eval(r).Some? && Belongs(keys', i, eval(r).value, way),
               r => eval(r).Some? && Belongs(keys, i, eval(r).value, way));
  }

  // ... and no earlier row belongs to it.
  lemma RowsNew<R>(rows: seq<R>, eval: R -> Option<seq<Value>>, keys: seq<seq<Value>>, firsts: seq<nat>,
                   key: seq<Value>, way: Way)
    requires Distinct(rows, eval, keys, firsts, way)
    ensures RowsOf(rows, eval, keys + [key], |keys|, way) == []
  {
    hide Same;
    var keys' := keys + [key];
    forall n | 0 <= n < |rows| ensures eval(rows[n]).Some? && !Belongs(keys', |keys|, eval(rows[n]).value, way) {
      assert Seen(rows, eval, keys, firsts, n, way);
      var i :| 0 <= i < |keys| && firsts[i] <= n && Same(keys[i], eval(rows[n]).value, way);
      assert keys'[i] == keys[i];
    }
    FilterNone(rows, r => eval(r).Some? && Belongs(keys', |keys|, eval(r).value, way));
  }

  // ---------------------------------------------------------------- what the output is

  // One row for every group of the order: its key and the aggregates of its rows.
  ghost predicate Answers<R>(out: seq<OutRow>, rows: seq<R>, env: Env<R>, keys: seq<seq<Value>>, order: seq<nat>,
                             way: Way)
    requires forall i :: 0 <= i < |order| ==> order[i] < |keys|
  {
    && |out| == |order|
    && forall i :: 0 <= i < |order| ==>
         && out[i].key == keys[order[i]]
         && env.aggregate(RowsOf(rows, env.eval, keys, order[i], way)) == Some(out[i].aggregates)
  }

  // No aggregate fails.
  ghost predicate Aggregated<R>(rows: seq<R>, env: Env<R>, keys: seq<seq<Value>>, order: seq<nat>, way: Way)
    requires forall i :: 0 <= i < |order| ==> order[i] < |keys|
  {
    forall i :: 0 <= i < |order| ==> env.aggregate(RowsOf(rows, env.eval, keys, order[i], way)).Some?
  }

  lemma {:induction false} OutputMeans<R>(groups: seq<Group<R>>, order: seq<nat>,
                                           aggregate: seq<R> -> Option<seq<Value>>)
    requires forall i :: 0 <= i < |order| ==> order[i] < |groups|
    ensures Output(groups, order, aggregate).Some? <==>
              forall i :: 0 <= i < |order| ==> aggregate(groups[order[i]].rows).Some?
    ensures Output(groups, order, aggregate).Some? ==>
              var out := Output(groups, order, aggregate).value;
              && |out| == |order|
              && forall i :: 0 <= i < |order| ==>
                   && out[i].key == groups[order[i]].key
                   && aggregate(groups[order[i]].rows) == Some(out[i].aggregates)
  {
    if order != [] {
      var n := |order| - 1;
      OutputMeans(groups, order[..n], aggregate);
      assert order == order[..n] + [order[n]];
    }
  }

  lemma OutputAnswers<R>(groups: seq<Group<R>>, rows: seq<R>, env: Env<R>, firsts: seq<nat>, order: seq<nat>, way: Way)
    requires AreGroups(groups, rows, env.eval, firsts, way) && forall i :: 0 <= i < |order| ==> order[i] < |groups|
    ensures Output(groups, order, env.aggregate).Some? <==> Aggregated(rows, env, Keys(groups), order, way)
    ensures Output(groups, order, env.aggregate).Some? ==>
              Answers(Output(groups, order, env.aggregate).value, rows, env, Keys(groups), order, way)
  {
    hide Distinct, RowsOf, Output;
    OutputMeans(groups, order, env.aggregate);
    assert forall i :: 0 <= i < |order| ==>
        groups[order[i]].rows == RowsOf(rows, env.eval, Keys(groups), order[i], way);
  }

  // What the list form returns, for every input with a row.
  lemma ListMeans<R(!new)>(rows: seq<R>, env: Env<R>)
    returns (keys: seq<seq<Value>>, firsts: seq<nat>, order: seq<nat>)
    requires Fits(env) && rows != []
    ensures order == env.sorter(ListTable(keys, env.toFloat)) && forall i :: 0 <= i < |order| ==> order[i] < |keys|
    ensures Evaluates(rows, env.eval) ==> Distinct(rows, env.eval, keys, firsts, ByList(env.toFloat))
    ensures ListResult(rows, env).Some? <==>
              Evaluates(rows, env.eval) && Aggregated(rows, env, keys, order, ByList(env.toFloat))
    ensures ListResult(rows, env).Some? ==>
              Answers(ListResult(rows, env).value, rows, env, keys, order, ByList(env.toFloat))
  {
    hide AreGroups, Output, Aggregated, Answers, Evaluates, Distinct;
    var way := ByList(env.toFloat);
    keys := [];
    firsts := GroupsMean(rows, env.eval, way);
    GroupsHaveRows(rows, env.eval, way);
    if Evaluates(rows, env.eval) { keys := Keys(Groups(rows, env.eval, way).value); }
    order := env.sorter(ListTable(keys, env.toFloat));
    if Evaluates(rows, env.eval) {
      var groups := Groups(rows, env.eval, way).value;
      OutputAnswers(groups, rows, env, firsts, order, way);
      GroupsDistinct(groups, rows, env.eval, firsts, way);
    }
  }

  lemma GroupsDistinct<R>(groups: seq<Group<R>>, rows: seq<R>, eval: R -> Option<seq<Value>>, firsts: seq<nat>,
                          way: Way)
    requires AreGroups(groups, rows, eval, firsts, way)
    ensures Distinct(rows, eval, Keys(groups), firsts, way)
    ensures HasRows(groups) && Firsts(groups) == At(rows, firsts)
  {
    hide Same, RowsOf;
  }

  function At<R>(rows: seq<R>, firsts: seq<nat>): (at: seq<R>)
    requires forall i :: 0 <= i < |firsts| ==> firsts[i] < |rows|
    ensures |at| == |firsts| && forall i :: 0 <= i < |firsts| ==> at[i] == rows[firsts[i]]
  {
    seq(|firsts|, i requires 0 <= i < |firsts| => rows[firsts[i]])
  }

  // What the hash form returns, for every input.
  lemma HashMeans<R(!new)>(rows: seq<R>, env: Env<R>)
    returns (keys: seq<seq<Value>>, firsts: seq<nat>, order: seq<nat>)
    requires Fits(env)
    ensures forall i :: 0 <= i < |firsts| ==> firsts[i] < |rows|
    ensures |firsts| == |keys|
    ensures order == env.sorter(HashTable(At(rows, firsts), env)) && forall i :: 0 <= i < |order| ==> order[i] < |keys|
    ensures Evaluates(rows, env.eval) ==> Distinct(rows, env.eval, keys, firsts, ByHash)
    ensures HashResult(rows, env).Some? <==>
              Evaluates(rows, env.eval) && Aggregated(rows, env, keys, order, ByHash)
    ensures HashResult(rows, env).Some? ==>
              Answers(HashResult(rows, env).value, rows, env, keys, order, ByHash)
  {
    hide AreGroups, Output, Aggregated, Answers, Evaluates, Distinct;
    keys, firsts := [], [];
    if Evaluates(rows, env.eval) {
      firsts := GroupsMean(rows, env.eval, ByHash);
      var groups := Groups(rows, env.eval, ByHash).value;
      keys := Keys(groups);
      GroupsDistinct(groups, rows, env.eval, firsts, ByHash);
    } else {
      var none := GroupsMean(rows, env.eval, ByHash);
    }
    order := env.sorter(HashTable(At(rows, firsts), env));
    if Evaluates(rows, env.eval) {
      OutputAnswers(Groups(rows, env.eval, ByHash).value, rows, env, firsts, order, ByHash);
    }
  }

  // ---------------------------------------------------------------- rows by equal keys

  // For the hash form the rows of a group are all rows with its hash key.
  lemma HashRows<R>(rows: seq<R>, eval: R -> Option<seq<Value>>, keys: seq<seq<Value>>, firsts: seq<nat>, i: nat)
    requires Distinct(rows, eval, keys, firsts, ByHash) && i < |keys|
    ensures RowsOf(rows, eval, keys, i, ByHash) ==
            Filter(rows, r => eval(r).Some? && DistinctKey(eval(r).value) == DistinctKey(keys[i]))
  {
    hide DistinctKey;
    forall k ensures Belongs(keys, i, k, ByHash) <==> DistinctKey(k) == DistinctKey(keys[i]) {
      assert forall j :: 0 <= j < i ==> !Same(keys[j], keys[i], ByHash);
    }
    FilterSame(rows, r => eval(r).Some? && Belongs(keys, i, eval(r).value, ByHash),
               r => eval(r).Some? && DistinctKey(eval(r).value) == DistinctKey(keys[i]));
  }

  // No column holds integers and floats.
  ghost predicate Unmixed<R>(rows: seq<R>, eval: R -> Option<seq<Value>>) {
    forall n, m :: 0 <= n < |rows| && 0 <= m < |rows| && eval(rows[n]).Some? && eval(rows[m]).Some? ==>
      UnmixedKeys(eval(rows[n]).value, eval(rows[m]).value)
  }

  predicate UnmixedKeys(a: seq<Value>, b: seq<Value>) {
    forall c :: 0 <= c < |a| && c < |b| ==> !(a[c].Int? && b[c].Float?) && !(a[c].Float? && b[c].Int?)
  }

  // Then, for the list form, they are all rows with its key.
  lemma ListRows<R>(rows: seq<R>, eval: R -> Option<seq<Value>>, keys: seq<seq<Value>>, firsts: seq<nat>, i: nat,
                    toFloat: ToFloat)
    requires Distinct(rows, eval, keys, firsts, ByList(toFloat)) && i < |keys| && Unmixed(rows, eval)
    ensures RowsOf(rows, eval, keys, i, ByList(toFloat)) == Filter(rows, r => eval(r) == Some(keys[i]))
  {
    hide EqualValue;
    forall n | 0 <= n < |rows|
      ensures eval(rows[n]).Some? && (Belongs(keys, i, eval(rows[n]).value, ByList(toFloat)) <==>
                                      eval(rows[n]).value == keys[i])
    {
      assert Seen(rows, eval, keys, firsts, n, ByList(toFloat));
      var k := eval(rows[n]).value;
      forall j | 0 <= j <= i ensures Same(keys[j], k, ByList(toFloat)) <==> keys[j] == k {
        assert UnmixedKeys(eval(rows[firsts[j]]).value, k);
        UnmixedEqual(keys[j], k, toFloat);
      }
    }
    FilterSame(rows, r => eval(r).Some? && Belongs(keys, i, eval(r).value, ByList(toFloat)),
               r => eval(r) == Some(keys[i]));
  }

  lemma UnmixedEqual(a: seq<Value>, b: seq<Value>, toFloat: ToFloat)
    requires UnmixedKeys(a, b)
    ensures KeysEqual(a, b, toFloat) <==> a == b
  {
    if KeysEqual(a, b, toFloat) {
      forall c | 0 <= c < |a| ensures a[c] == b[c] { assert EqualValue(a[c], b[c], toFloat); }
    }
  }

  // ---------------------------------------------------------------- the order of the output

  // A table of comparisons of a strict weak order.
  ghost predicate WeakTable(table: seq<seq<bool>>) {
    && (forall i :: 0 <= i < |table| ==> |table[i]| == |table|)
    && (forall i :: 0 <= i < |table| ==> !table[i][i])
    && (forall i, j, k :: 0 <= i < |table| && 0 <= j < |table| && 0 <= k < |table| && !table[j][i] && !table[k][j] ==>
          !table[k][i])
  }

  // No later entry is less than an earlier one, and entries that tie keep their order.
  ghost predicate SortsTable(order: seq<nat>, table: seq<seq<bool>>)
    requires forall i :: 0 <= i < |table| ==> |table[i]| == |table|
    requires forall i :: 0 <= i < |order| ==> order[i] < |table|
  {
    && (forall n :: 0 <= n < |table| ==> n in order)
    && forall i, j :: 0 <= i < j < |order| ==>
         !table[order[j]][order[i]] && (table[order[i]][order[j]] || order[i] < order[j])
  }

  // The sorter sorts whatever is strictly weakly ordered.
  ghost predicate Sorting<R(!new)>(env: Env<R>)
    requires Fits(env)
  {
    forall table :: WeakTable(table) ==> SortsTable(env.sorter(table), table)
  }

  ghost predicate EvenTo(a: seq<Value>, b: seq<Value>, c: nat, toFloat: ToFloat)
    requires c <= |a| && c <= |b|
  {
    forall d :: 0 <= d < c ==> Even(a[d], b[d], toFloat)
  }

  // Going by the first column that is not even, a comes before b.
  ghost predicate Ascends(a: seq<Value>, b: seq<Value>, toFloat: ToFloat) {
    forall c :: 0 <= c < |a| && c < |b| && !Even(a[c], b[c], toFloat) && EvenTo(a, b, c, toFloat) ==>
      Below(a[c], b[c], toFloat)
  }

  ghost predicate AllEven(a: seq<Value>, b: seq<Value>, toFloat: ToFloat) {
    |a| == |b| && EvenTo(a, b, |a|, toFloat)
  }

  // The keys come in ascending order, even ones in the order of their first appearance.
  ghost predicate KeysAscend(keys: seq<seq<Value>>, order: seq<nat>, toFloat: ToFloat)
    requires forall i :: 0 <= i < |order| ==> order[i] < |keys|
  {
    && (forall n :: 0 <= n < |keys| ==> n in order)
    && forall i, j :: 0 <= i < j < |order| ==>
         && Ascends(keys[order[i]], keys[order[j]], toFloat)
         && (AllEven(keys[order[i]], keys[order[j]], toFloat) ==> order[i] < order[j])
  }

  lemma NotLess(a: seq<Value>, b: seq<Value>, toFloat: ToFloat)
    requires |a| == |b|
    ensures !KeysLess(b, a, toFloat) ==> Ascends(a, b, toFloat)
    ensures AllEven(a, b, toFloat) ==> !KeysLess(a, b, toFloat)
  {
    hide Below, KeysLess;
    KeysLessMeans(b, a, toFloat);
    KeysLessMeans(a, b, toFloat);
    if !KeysLess(b, a, toFloat) {
      forall c | 0 <= c < |a| && !Even(a[c], b[c], toFloat) && EvenTo(a, b, c, toFloat)
        ensures Below(a[c], b[c], toFloat)
      {
        NotBeforeAt(b, a, c, toFloat);
      }
    }
  }

  lemma NotBeforeAt(b: seq<Value>, a: seq<Value>, c: nat, toFloat: ToFloat)
    requires !Before(b, a, toFloat)
    ensures !BeforeAt(b, a, c, toFloat)
  {
  }

  lemma ListTableWeak(keys: seq<seq<Value>>, toFloat: ToFloat)
    requires forall i, j :: 0 <= i < |keys| && 0 <= j < |keys| ==> Comparable(keys[i], keys[j])
    ensures WeakTable(ListTable(keys, toFloat))
  {
    hide KeysLess, Comparable;
    var table := ListTable(keys, toFloat);
    forall i | 0 <= i < |keys| ensures !table[i][i] { KeysLessWeak(keys[i], keys[i], keys[i], toFloat); }
    forall i, j, k | 0 <= i < |keys| && 0 <= j < |keys| && 0 <= k < |keys| && !table[j][i] && !table[k][j]
      ensures !table[k][i]
    {
      KeysLessWeak(keys[i], keys[j], keys[k], toFloat);
    }
  }

  // With a sort that sorts, keys of one type a column come out in ascending order.
  lemma KeysComeSorted<R(!new)>(env: Env<R>, keys: seq<seq<Value>>)
    requires Fits(env) && Sorting(env)
    requires forall i, j :: 0 <= i < |keys| && 0 <= j < |keys| ==> Comparable(keys[i], keys[j])
    ensures forall i :: 0 <= i < |keys| ==> env.sorter(ListTable(keys, env.toFloat))[i] < |keys|
    ensures KeysAscend(keys, env.sorter(ListTable(keys, env.toFloat)), env.toFloat)
  {
    hide KeysLess, Ascends, AllEven, Comparable;
    var table := ListTable(keys, env.toFloat);
    ListTableWeak(keys, env.toFloat);
    SorterFits(env, table);
    var order := env.sorter(table);
    assert SortsTable(order, table);
    forall i, j | 0 <= i < j < |order|
      ensures Ascends(keys[order[i]], keys[order[j]], env.toFloat)
      ensures AllEven(keys[order[i]], keys[order[j]], env.toFloat) ==> order[i] < order[j]
    {
      SameLength(keys[order[i]], keys[order[j]]);
      NotLess(keys[order[i]], keys[order[j]], env.toFloat);
    }
  }

  lemma SameLength(a: seq<Value>, b: seq<Value>)
    requires Comparable(a, b)
    ensures |a| == |b|
  {
  }

  // The hash form compares the first rows of the groups.
  lemma RowsComeSorted<R(!new)>(env: Env<R>, firsts: seq<R>)
    requires Fits(env) && Sorting(env)
    requires forall i, j :: 0 <= i < |firsts| && 0 <= j < |firsts| ==>
               Comparable(env.evalNil(firsts[i]), env.evalNil(firsts[j]))
    ensures forall i :: 0 <= i < |firsts| ==> env.sorter(HashTable(firsts, env))[i] < |firsts|
    ensures KeysAscend(KeysNil(firsts, env), env.sorter(HashTable(firsts, env)), env.toFloat)
  {
    hide KeysLess, RowsLess, KeysAscend, Comparable;
    var keys := KeysNil(firsts, env);
    var h, l := HashTable(firsts, env), ListTable(keys, env.toFloat);
    forall i | 0 <= i < |firsts| ensures h[i] == l[i] {
      forall j | 0 <= j < |firsts| ensures h[i][j] == l[i][j] {
        SameLength(keys[i], keys[j]);
        LessSame(keys[i], keys[j], env.toFloat);
      }
    }
    assert h == l;
    KeysComeSorted(env, keys);
  }

  function KeysNil<R>(firsts: seq<R>, env: Env<R>): (keys: seq<seq<Value>>)
    ensures |keys| == |firsts| && forall i :: 0 <= i < |keys| ==> keys[i] == env.evalNil(firsts[i])
  {
    seq(|firsts|, i requires 0 <= i < |firsts| => env.evalNil(firsts[i]))
  }

  // ---------------------------------------------------------------- the same rows

  // NULL, integers, booleans and strings, where no string before the last column can be
  // mistaken for a shorter one.
  ghost predicate Plain(key: seq<Value>) {
    Separable(key) && NoFloats(key)
  }

  ghost predicate PlainKeys<R>(rows: seq<R>, eval: R -> Option<seq<Value>>) {
    forall i :: 0 <= i < |rows| && eval(rows[i]).Some? ==> Plain(eval(rows[i]).value)
  }

  lemma {:induction false} FindSame<R>(groups: seq<Group<R>>, key: seq<Value>, toFloat: ToFloat)
    requires Plain(key) && forall i :: 0 <= i < |groups| ==> |groups[i].key| == |key| && Plain(groups[i].key)
    ensures FindGroup(groups, key, ByHash) == FindGroup(groups, key, ByList(toFloat))
  {
    if groups != [] {
      DistinctKeyInjective(groups[0].key, key, toFloat);
      FindSame(groups[1..], key, toFloat);
    }
  }

  lemma {:induction false} SameGroups<R(!new)>(rows: seq<R>, env: Env<R>)
    requires Fits(env) && PlainKeys(rows, env.eval)
    ensures Groups(rows, env.eval, ByHash) == Groups(rows, env.eval, ByList(env.toFloat))
    ensures var g := Groups(rows, env.eval, ByList(env.toFloat));
            g.Some? ==> forall i :: 0 <= i < |g.value| ==> |g.value[i].key| == env.columns && Plain(g.value[i].key)
  {
    hide Plain;
    if rows != [] {
      var n := |rows| - 1;
      SameGroups(rows[..n], env);
      var g := Groups(rows[..n], env.eval, ByList(env.toFloat));
      if g.Some? && env.eval(rows[n]).Some? { FindSame(g.value, env.eval(rows[n]).value, env.toFloat); }
    }
  }

  // Two rows are grouped alike exactly when the hash key and the comparison agree on
  // their keys; every disagreement shows.
  lemma DisagreementShows<R(!new)>(r: R, q: R, env: Env<R>)
    requires env.eval(r).Some? && env.eval(q).Some?
    ensures var a, b := env.eval(r).value, env.eval(q).value;
            Groups([r, q], env.eval, ByHash) == Groups([r, q], env.eval, ByList(env.toFloat)) <==>
            (DistinctKey(a) == DistinctKey(b) <==> KeysEqual(a, b, env.toFloat))
  {
    var a, b := env.eval(r).value, env.eval(q).value;
    assert [r, q][..1] == [r] && [r][..0] == [];
    TwoRows(r, q, env, ByHash);
    TwoRows(r, q, env, ByList(env.toFloat));
  }

  lemma TwoRows<R(!new)>(r: R, q: R, env: Env<R>, way: Way)
    requires env.eval(r).Some? && env.eval(q).Some?
    ensures var a, b := env.eval(r).value, env.eval(q).value;
            Groups([r, q], env.eval, way) ==
            Some(if Same(a, b, way) then [Group(a, [r, q])] else [Group(a, [r]), Group(b, [q])])
  {
    hide Same;
    var a, b := env.eval(r).value, env.eval(q).value;
    var none: seq<Group<R>> := [];
    assert [r, q][..1] == [r] && [r][..0] == [];
    assert Groups([r][..0], env.eval, way) == Some(none);
    assert AddRow(none, a, r, way) == [Group(a, [r])];
    assert Groups([r], env.eval, way) == Some([Group(a, [r])]);
    assert [r] + [q] == [r, q];
    var one := [Group(a, [r])];
    assert FindGroup(one, b, way) == if Same(a, b, way) then 0 else 1;
    assert AddRow(one, b, q, way) ==
           if Same(a, b, way) then [Group(a, [r, q])] else [Group(a, [r]), Group(b, [q])];
  }

  lemma {:induction false} LessSame(a: seq<Value>, b: seq<Value>, toFloat: ToFloat)
    requires |a| == |b|
    ensures RowsLess(a, b, toFloat) == KeysLess(a, b, toFloat)
  {
    if a != [] { LessSame(a[1..], b[1..], toFloat); }
  }

  lemma TablesSame<R(!new)>(groups: seq<Group<R>>, env: Env<R>)
    requires Fits(env) && HasRows(groups)
    requires forall i :: 0 <= i < |groups| ==> env.evalNil(groups[i].rows[0]) == groups[i].key
    ensures HashTable(Firsts(groups), env) == ListTable(Keys(groups), env.toFloat)
  {
    var h, l := HashTable(Firsts(groups), env), ListTable(Keys(groups), env.toFloat);
    forall i | 0 <= i < |groups| ensures h[i] == l[i] {
      forall j | 0 <= j < |groups| ensures h[i][j] == l[i][j] {
        LessSame(groups[i].key, groups[j].key, env.toFloat);
      }
    }
  }

  // The group columns use no parameter.
  ghost predicate NoParams<R>(rows: seq<R>, env: Env<R>) {
    forall i :: 0 <= i < |rows| && env.eval(rows[i]).Some? ==> env.evalNil(rows[i]) == env.eval(rows[i]).value
  }

  // For plain keys without parameters the two operators return the same rows in the
  // same order, except on an empty input without GROUP BY.
  lemma SameResult<R(!new)>(rows: seq<R>, env: Env<R>)
    requires Fits(env) && PlainKeys(rows, env.eval) && NoParams(rows, env)
    ensures HashResult(rows, env) == ListResult(rows, env) <==> rows != [] || env.columns > 0
  {
    hide PlainKeys, KeysLess, RowsLess;
    SameGroups(rows, env);
    GroupsHaveRows(rows, env.eval, ByHash);
    if rows == [] {
      EmptyResults(rows, env);
    } else if Groups(rows, env.eval, ByHash).Some? {
      var groups := Groups(rows, env.eval, ByHash).value;
      forall i | 0 <= i < |groups| ensures env.evalNil(groups[i].rows[0]) == groups[i].key {
        var r := groups[i].rows[0];
        var j :| 0 <= j < |rows| && rows[j] == r;
      }
      TablesSame(groups, env);
    }
  }

  lemma EmptyResults<R(!new)>(rows: seq<R>, env: Env<R>)
    requires Fits(env) && rows == []
    ensures HashResult(rows, env) == Some([])
    ensures env.columns > 0 ==> ListResult(rows, env) == Some([])
    ensures env.columns == 0 ==>
              ListResult(rows, env) ==
              if env.aggregate([]).None? then None else Some([OutRow([], env.aggregate([]).value)])
  {
    var none: seq<Group<R>> := [];
    var one: seq<Group<R>> := [Group([], [])];
    var order := env.sorter(ListTable(Keys(one), env.toFloat));
    assert |order| == 1 && order[0] < 1;
    assert order[..0] == [];
    var before: seq<OutRow> := [];
    assert Output(one, order[..0], env.aggregate) == Some(before);
    if env.aggregate([]).Some? {
      assert before + [OutRow([], env.aggregate([]).value)] == [OutRow([], env.aggregate([]).value)];
    }
    assert HashTable(Firsts(none), env) == [];
  }

  // ---------------------------------------------------------------- the operators

  class Aggregate<!R(!new)> {
    var buf: seq<OutRow>

    constructor ()
      ensures buf == []
    {
      buf := [];
    }

    // The linear search for the group of a key.
    method Find(groups: seq<Group<R>>, key: seq<Value>, toFloat: ToFloat) returns (idx: nat)
      ensures idx == FindGroup(groups, key, ByList(toFloat))
    {
      idx := 0;
      while idx < |groups| && !KeysEqual(groups[idx].key, key, toFloat)
        invariant idx <= |groups| && forall j :: 0 <= j < idx ==> !Same(groups[j].key, key, ByList(toFloat))
      {
        idx := idx + 1;
      }
      FirstMatch(groups, key, ByList(toFloat), idx);
    }

    method Fill(rows: seq<R>, env: Env<R>) returns (ok: bool, groups: seq<Group<R>>)
      ensures ok <==> Groups(rows, env.eval, ByList(env.toFloat)).Some?
      ensures ok ==> Groups(rows, env.eval, ByList(env.toFloat)) == Some(groups)
    {
      hide Same;
      groups := [];
      for n := 0 to |rows|
        invariant Groups(rows[..n], env.eval, ByList(env.toFloat)) == Some(groups)
      {
        var row := rows[n];
        assert rows[..n + 1][..n] == rows[..n];
        var key := env.eval(row);
        if key.None? {
          ErrorStays(rows, env.eval, ByList(env.toFloat), n + 1);
          return false, [];
        }
        var idx := Find(groups, key.value, env.toFloat);
        if idx == |groups| {
          groups := groups + [Group(key.value, [row])];
        } else {
          groups := groups[idx := groups[idx].(rows := groups[idx].rows + [row])];
        }
      }
      assert rows[..|rows|] == rows;
      return true, groups;
    }

    // materialize over the rows that the child delivers: one row of output for each
    // distinct key, with the aggregates of exactly the rows of that key.
    method Materialize(rows: seq<R>, env: Env<R>)
      returns (ok: bool, ghost distinct: seq<seq<Value>>, ghost leaders: seq<nat>, ghost sorted: seq<nat>)
      requires Fits(env) && buf == []
      modifies this
      ensures ok <==> ListResult(rows, env).Some?
      ensures ok ==> ListResult(rows, env) == Some(buf)
      ensures sorted == env.sorter(ListTable(distinct, env.toFloat))
      ensures forall i :: 0 <= i < |sorted| ==> sorted[i] < |distinct|
      ensures rows != [] && Evaluates(rows, env.eval) ==>
                Distinct(rows, env.eval, distinct, leaders, ByList(env.toFloat))
      ensures rows != [] ==>
                (ok <==> Evaluates(rows, env.eval) && Aggregated(rows, env, distinct, sorted, ByList(env.toFloat)))
      ensures rows != [] && ok ==> Answers(buf, rows, env, distinct, sorted, ByList(env.toFloat))
      ensures rows == [] && env.columns > 0 ==> ok && buf == []
      ensures rows == [] && env.columns == 0 ==>
                (ok <==> env.aggregate([]).Some?) && (ok ==> buf == [OutRow([], env.aggregate([]).value)])
    {
      hide Fits, Groups, Output, Aggregated, Answers, Evaluates, Distinct, HashResult;
      if rows == [] {
        distinct, leaders, sorted := [], [], env.sorter(ListTable([], env.toFloat));
        SorterFits(env, ListTable([], env.toFloat));
        EmptyResults(rows, env);
      } else {
        distinct, leaders, sorted := ListMeans(rows, env);
      }
      var groups;
      ok, groups := Fill(rows, env);
      if !ok {
        return;
      }
      if groups == [] && env.columns > 0 {
        ok := true;
        return;
      }
      if groups == [] {
        groups := [Group([], [])];
      }
      var table := ListTable(Keys(groups), env.toFloat);
      SorterFits(env, table);
      ok := Emit(groups, env.sorter(table), env);
    }

    method Emit(groups: seq<Group<R>>, order: seq<nat>, env: Env<R>) returns (ok: bool)
      requires buf == [] && forall i :: 0 <= i < |order| ==> order[i] < |groups|
      modifies this
      ensures ok <==> Output(groups, order, env.aggregate).Some?
      ensures ok ==> Output(groups, order, env.aggregate) == Some(buf)
    {
      for n := 0 to |order|
        invariant Output(groups, order[..n], env.aggregate) == Some(buf)
      {
        assert order[..n + 1][..n] == order[..n];
        var values := env.aggregate(groups[order[n]].rows);
        if values.None? {
          OutputStays(groups, order, env.aggregate, n + 1);
          return false;
        }
        buf := buf + [OutRow(groups[order[n]].key, values.value)];
      }
      assert order[..|order|] == order;
      return true;
    }
  }

  lemma SorterFits<R(!new)>(env: Env<R>, table: seq<seq<bool>>)
    requires Fits(env)
    ensures |env.sorter(table)| == |table| && forall i :: 0 <= i < |table| ==> env.sorter(table)[i] < |table|
  {
  }

  lemma FirstMatch<R>(groups: seq<Group<R>>, key: seq<Value>, way: Way, i: nat)
    requires i <= |groups| && forall j :: 0 <= j < i ==> !Same(groups[j].key, key, way)
    requires i < |groups| ==> Same(groups[i].key, key, way)
    ensures FindGroup(groups, key, way) == i
  {
    hide Same;
  }

  lemma {:induction false} ErrorStays<R>(rows: seq<R>, eval: R -> Option<seq<Value>>, way: Way, n: nat)
    requires n <= |rows| && Groups(rows[..n], eval, way).None?
    ensures Groups(rows, eval, way).None?
    decreases |rows| - n
  {
    if n == |rows| {
      assert rows[..n] == rows;
    } else {
      assert rows[..n + 1][..n] == rows[..n];
      ErrorStays(rows, eval, way, n + 1);
    }
  }

  lemma {:induction false} OutputStays<R>(groups: seq<Group<R>>, order: seq<nat>,
                                          aggregate: seq<R> -> Option<seq<Value>>, n: nat)
    requires n <= |order| && forall i :: 0 <= i < |order| ==> order[i] < |groups|
    requires Output(groups, order[..n], aggregate).None?
    ensures Output(groups, order, aggregate).None?
    decreases |order| - n
  {
    if n == |order| {
      assert order[..n] == order;
    } else {
      assert order[..n + 1][..n] == order[..n];
      OutputStays(groups, order, aggregate, n + 1);
    }
  }

  // The buckets in the order of their keys hold the groups.
  ghost predicate Buckets<R>(groups: seq<Group<R>>, buckets: map<Key, seq<R>>, order: seq<Key>) {
    && |order| == |groups|
    && (forall i :: 0 <= i < |order| ==>
          order[i] == DistinctKey(groups[i].key) && order[i] in buckets && buckets[order[i]] == groups[i].rows)
    && (forall k :: k in buckets ==> k in order)
    && (forall i, j :: 0 <= i < j < |order| ==> order[i] != order[j])
  }

  lemma AddsToBucket<R>(groups: seq<Group<R>>, buckets: map<Key, seq<R>>, order: seq<Key>, key: seq<Value>, row: R)
    requires Buckets(groups, buckets, order)
    ensures var ks := DistinctKey(key);
            var buckets' := if ks in buckets then buckets else buckets[ks := []];
            var order' := if ks in buckets then order else order + [ks];
            Buckets(AddRow(groups, key, row, ByHash), buckets'[ks := buckets'[ks] + [row]], order')
  {
    hide DistinctKey, Same, Buckets;
    var ks := DistinctKey(key);
    if ks in buckets {
      var i := OrderOf(groups, buckets, order, ks);
      OldBucket(groups, buckets, order, key, i);
      AddsToOld(groups, buckets, order, i, row);
    } else {
      NoBucket(groups, buckets, order, key);
      AddsNew(groups, buckets, order, key, row);
      var none: seq<R> := [];
      assert none + [row] == [row];
      assert buckets[ks := none][ks := none + [row]] == buckets[ks := [row]];
    }
  }

  lemma OrderOf<R>(groups: seq<Group<R>>, buckets: map<Key, seq<R>>, order: seq<Key>, ks: Key) returns (i: nat)
    requires Buckets(groups, buckets, order) && ks in buckets
    ensures i < |order| == |groups| && order[i] == ks
  {
    i :| 0 <= i < |order| && order[i] == ks;
  }

  lemma AddsToOld<R>(groups: seq<Group<R>>, buckets: map<Key, seq<R>>, order: seq<Key>, i: nat, row: R)
    requires Buckets(groups, buckets, order) && i < |order|
    ensures Buckets(groups[i := groups[i].(rows := groups[i].rows + [row])],
                    buckets[order[i] := buckets[order[i]] + [row]], order)
  {
    hide DistinctKey;
  }

  lemma AddsNew<R>(groups: seq<Group<R>>, buckets: map<Key, seq<R>>, order: seq<Key>, key: seq<Value>, row: R)
    requires Buckets(groups, buckets, order) && DistinctKey(key) !in buckets
    ensures Buckets(groups + [Group(key, [row])], buckets[DistinctKey(key) := [row]], order + [DistinctKey(key)])
  {
    hide DistinctKey;
    var ks := DistinctKey(key);
    forall k | k in buckets[ks := [row]] ensures k in order + [ks] {
      if k == ks { assert (order + [ks])[|order|] == ks; }
    }
  }

  lemma OldBucket<R>(groups: seq<Group<R>>, buckets: map<Key, seq<R>>, order: seq<Key>, key: seq<Value>, i: nat)
    requires Buckets(groups, buckets, order) && i < |order| && order[i] == DistinctKey(key)
    ensures FindGroup(groups, key, ByHash) == i
  {
    hide DistinctKey;
    FirstMatch(groups, key, ByHash, i);
  }

  lemma NoBucket<R>(groups: seq<Group<R>>, buckets: map<Key, seq<R>>, order: seq<Key>, key: seq<Value>)
    requires Buckets(groups, buckets, order) && DistinctKey(key) !in buckets
    ensures FindGroup(groups, key, ByHash) == |groups|
  {
    hide DistinctKey;
    FirstMatch(groups, key, ByHash, |groups|);
  }

  class HashAggregate<!R(!new)> {
    var keys: seq<seq<Value>>
    var buckets: map<Key, seq<R>>
    var order: seq<Key>
    var buf: seq<OutRow>

    constructor ()
      ensures keys == [] && buckets == map[] && order == [] && buf == []
    {
      keys, buckets, order, buf := [], map[], [], [];
    }

    // Every row goes into the bucket of its key.
    method Fill(rows: seq<R>, env: Env<R>) returns (ok: bool, ghost groups: seq<Group<R>>)
      requires buckets == map[] && order == [] && buf == []
      modifies this
      ensures buf == []
      ensures ok <==> Groups(rows, env.eval, ByHash).Some?
      ensures ok ==> Groups(rows, env.eval, ByHash) == Some(groups) && Buckets(groups, buckets, order)
    {
      hide Buckets, AddRow, DistinctKey;
      groups := [];
      assert Buckets(groups, buckets, order) by { NoBuckets<R>(); }
      for n := 0 to |rows|
        invariant Groups(rows[..n], env.eval, ByHash) == Some(groups) && Buckets(groups, buckets, order) && buf == []
      {
        var row := rows[n];
        assert rows[..n + 1][..n] == rows[..n];
        var key := env.eval(row);
        if key.None? {
          ErrorStays(rows, env.eval, ByHash, n + 1);
          return false, [];
        }
        AddsToBucket(groups, buckets, order, key.value, row);
        var ks := DistinctKey(key.value);
        if ks !in buckets {
          buckets := buckets[ks := []];
          keys := keys + [key.value];
          order := order + [ks];
        }
        buckets := buckets[ks := buckets[ks] + [row]];
        groups := AddRow(groups, key.value, row, ByHash);
      }
      assert rows[..|rows|] == rows;
      return true, groups;
    }

    // One row of output for each distinct hash key, with the aggregates of exactly the
    // rows of that key.
    method Materialize(rows: seq<R>, env: Env<R>)
      returns (ok: bool, ghost distinct: seq<seq<Value>>, ghost leaders: seq<nat>, ghost sorted: seq<nat>)
      requires Fits(env) && buckets == map[] && order == [] && buf == []
      modifies this
      ensures ok <==> HashResult(rows, env).Some?
      ensures ok ==> HashResult(rows, env) == Some(buf)
      ensures |leaders| == |distinct| && forall i :: 0 <= i < |leaders| ==> leaders[i] < |rows|
      ensures sorted == env.sorter(HashTable(At(rows, leaders), env))
      ensures forall i :: 0 <= i < |sorted| ==> sorted[i] < |distinct|
      ensures Evaluates(rows, env.eval) ==> Distinct(rows, env.eval, distinct, leaders, ByHash)
      ensures ok <==> Evaluates(rows, env.eval) && Aggregated(rows, env, distinct, sorted, ByHash)
      ensures ok ==> Answers(buf, rows, env, distinct, sorted, ByHash)
    {
      hide Groups, DistinctKey, RowsLess, Output, Aggregated, Answers, Evaluates, Distinct;
      distinct, leaders, sorted := HashMeans(rows, env);
      ghost var groups;
      ok, groups := Fill(rows, env);
      if !ok {
        return;
      }
      GroupsHaveRows(rows, env.eval, ByHash);
      BucketRows(groups, buckets, order);
      var firsts: seq<R> := [];
      for i := 0 to |order|
        invariant |firsts| == i && (forall j :: 0 <= j < i ==> firsts[j] == groups[j].rows[0]) && buf == []
        modifies {}
      {
        firsts := firsts + [buckets[order[i]][0]];
      }
      assert firsts == Firsts(groups);
      var table := HashTable(firsts, env);
      SorterFits(env, table);
      ok := Emit(groups, env.sorter(table), env);
    }

    // One row of output for every bucket, its key evaluated on its first row.
    method Emit(ghost groups: seq<Group<R>>, sorted: seq<nat>, env: Env<R>) returns (ok: bool)
      requires Buckets(groups, buckets, order) && HasRows(groups) && buf == []
      requires forall i :: 0 <= i < |groups| ==> env.eval(groups[i].rows[0]) == Some(groups[i].key)
      requires forall i :: 0 <= i < |sorted| ==> sorted[i] < |groups|
      modifies this`buf
      ensures ok <==> Output(groups, sorted, env.aggregate).Some?
      ensures ok ==> Output(groups, sorted, env.aggregate) == Some(buf)
    {
      hide DistinctKey;
      BucketRows(groups, buckets, order);
      for n := 0 to |sorted|
        invariant Output(groups, sorted[..n], env.aggregate) == Some(buf)
      {
        assert sorted[..n + 1][..n] == sorted[..n];
        var rows := buckets[order[sorted[n]]];
        var key := env.eval(rows[0]).value;
        var values := env.aggregate(rows);
        if values.None? {
          OutputStays(groups, sorted, env.aggregate, n + 1);
          return false;
        }
        buf := buf + [OutRow(key, values.value)];
      }
      assert sorted[..|sorted|] == sorted;
      return true;
    }
  }

  lemma BucketRows<R>(groups: seq<Group<R>>, buckets: map<Key, seq<R>>, order: seq<Key>)
    requires Buckets(groups, buckets, order)
    ensures |order| == |groups| && forall i :: 0 <= i < |order| ==>
              order[i] in buckets && buckets[order[i]] == groups[i].rows
  {
  }

  lemma NoBuckets<R>()
    ensures Buckets<R>([], map[], [])
  {
  }
}
