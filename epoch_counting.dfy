/**
 * The epoch-counting results script: for every model, test fold and
 * validation fold, the epoch with the lowest validation loss; the rows of the
 * counts table in the order they are generated; and the per-test-fold mean of
 * those epochs together with the sample variance the standard error is taken
 * from. Reading the history files is a map from path to its `val_loss` column;
 * writing and sorting the tables is not modelled.
 */
module EpochCounting {
  import opened Wrappers
  import opened Dicts
  import Text

  /** The ways the script stops with an exception. */
  datatype EpochError =
    | EmptyPath(model: string)                        // an empty path in a fold's list
    | MissingHistory(path: string)                    // the file or its `val_loss` column cannot be read
    | NoParentDirectory(path: string)                 // the path has no `/`, so there is no second-to-last piece
    | NoConfigs                                       // the counts table has no config to take positions from
    | MissingTestFold(config: string, position: nat)  // a config has fewer test folds than the first one
    | MissingConfigIndex(config: string)              // no config number for a config that produces a row
    | DivisionByZero(config: string, testFold: string)

  /** The `val_loss` column of every readable history file, keyed by path. */
  type Histories = map<string, seq<real>>

  /** model -> test fold -> list of history paths. */
  type HistoryPaths = Dict<Dict<seq<string>>>

  /** model -> test fold -> validation fold -> best epoch. */
  type Epochs = Dict<Dict<Dict<int>>>

  // ---------------------------------------------------------------------------
  // The best epoch of one history
  // ---------------------------------------------------------------------------

  /** The position of the first minimum, or -1 for an empty column. */
  function FirstArgMin(s: seq<real>): (r: int)
    ensures -1 <= r < |s|
    ensures r == -1 <==> s == []
    ensures r >= 0 ==> (forall j :: 0 <= j < |s| ==> s[r] <= s[j]) && (forall j :: 0 <= j < r ==> s[r] < s[j])
    decreases |s|
  {
    if s == [] then -1
    else
      var r := FirstArgMin(s[..|s| - 1]);
      if r == -1 || s[|s| - 1] < s[r] then |s| - 1 else r
  }

  /** The scan over `val_loss`: the running minimum starts at infinity (None) and moves only on a strictly smaller loss. */
  method BestEpoch(losses: seq<real>) returns (minIndex: int)
    ensures minIndex == FirstArgMin(losses)
  {
    minIndex := -1;
    var minLoss: Option<real> := None;
    for row := 0 to |losses|
      invariant minIndex == FirstArgMin(losses[..row])
      invariant minLoss == if minIndex == -1 then None else Some(losses[minIndex])
    {
      assert losses[..row + 1][..row] == losses[..row];
      if minLoss.None? || losses[row] < minLoss.value {
        minLoss := Some(losses[row]);
        minIndex := row;
      }
    }
    assert losses[..|losses|] == losses;
  }

  // ---------------------------------------------------------------------------
  // Column names
  // ---------------------------------------------------------------------------

  /**
   * The last `_`-piece of the second-to-last `/`-piece of the path. A path has
   * a column name exactly when it contains a `/`; otherwise indexing piece -2
   * fails.
   */
  function ColumnName(path: string): (r: Result<string, EpochError>)
    ensures r.Ok? <==> '/' in path
    ensures r.Err? ==> r.error == NoParentDirectory(path)
  {
    Text.SplitCount(path, '/');
    var pieces := Text.Split(path, '/');
    if |pieces| < 2 then Err(NoParentDirectory(path))
    else Ok(Text.Last(Text.Split(pieces[|pieces| - 2], '_')))
  }

  /** Where a name sits inside `a + dir + "/" + last` once `dir` is split as `b + name`. */
  lemma NameInPath(path: string, a: string, dir: string, last: string, b: string, name: string)
    requires path == a + dir + "/" + last && dir == b + name && '/' !in dir
    requires a == [] || a[|a| - 1] == '/'
    requires b == [] || b[|b| - 1] == '_'
    ensures path == (a + b) + name + "/" + last
    ensures '/' !in name
    ensures a + b == [] || (a + b)[|a + b| - 1] == '/' || (a + b)[|a + b| - 1] == '_'
  {
    forall i | 0 <= i < |name|
      ensures name[i] != '/'
    {
      assert name[i] == dir[|b| + i];
    }
    if b != [] {
      assert (a + b)[|a + b| - 1] == b[|b| - 1];
    }
  }

  /** A path with a `/` is `a + dir + "/" + last` around its last separator, and its column name lies in `dir`. */
  lemma ParentPieces(path: string) returns (a: string, dir: string, last: string)
    requires '/' in path
    ensures path == a + dir + "/" + last
    ensures '/' !in dir && '/' !in last
    ensures a == [] || a[|a| - 1] == '/'
    ensures ColumnName(path) == Ok(Text.Last(Text.Split(dir, '_')))
  {
    Text.SplitCount(path, '/');
    var pieces := Text.Split(path, '/');
    var n := |pieces|;
    a := Text.SplitLastTwo(path, '/');
    Text.SplitPiecesHaveNoSep(path, '/');
    dir := pieces[n - 2];
    last := pieces[n - 1];
  }

  /**
   * The column name is the text between the last `_` or `/` before the
   * parent-directory separator and that separator: the path is
   * `pre + name + "/" + last` with no `/` in `last` and no `_` or `/` in the name.
   */
  lemma ColumnNameShape(path: string) returns (pre: string, last: string)
    requires '/' in path
    ensures ColumnName(path).Ok?
    ensures path == pre + ColumnName(path).value + "/" + last
    ensures '/' !in last && '/' !in ColumnName(path).value && '_' !in ColumnName(path).value
    ensures pre == [] || pre[|pre| - 1] == '/' || pre[|pre| - 1] == '_'
  {
    var a, dir;
    a, dir, last := ParentPieces(path);
    var b := Text.SplitLastPiece(dir, '_');
    Text.SplitPiecesHaveNoSep(dir, '_');
    var name := Text.Last(Text.Split(dir, '_'));
    NameInPath(path, a, dir, last, b, name);
    pre := a + b;
  }

  // ---------------------------------------------------------------------------
  // count_epochs
  // ---------------------------------------------------------------------------

  /** One path's entry: its column name and best epoch, with the checks in the order the script makes them. */
  function PathEntry(model: string, path: string, h: Histories): (r: Result<(string, int), EpochError>)
    ensures r.Ok? <==> path != [] && path in h && '/' in path
    ensures r.Ok? ==> r.value == (ColumnName(path).value, FirstArgMin(h[path]))
    ensures r.Err? ==> r.error == if path == [] then EmptyPath(model)
                                  else if path !in h then MissingHistory(path)
                                  else NoParentDirectory(path)
  {
    if path == [] then Err(EmptyPath(model))
    else if path !in h then Err(MissingHistory(path))
    else
      var col :- ColumnName(path);
      Ok((col, FirstArgMin(h[path])))
  }

  /** A test fold's validation-fold dictionary, continuing from `acc`; the first failing path stops the script. */
  function RowCounts(model: string, paths: seq<string>, h: Histories, acc: Dict<int>): Result<Dict<int>, EpochError>
    decreases |paths|
  {
    if paths == [] then Ok(acc)
    else
      var e :- PathEntry(model, paths[0], h);
      RowCounts(model, paths[1..], h, Put(acc, e.0, e.1))
  }

  /** A model's test-fold dictionary, continuing from `acc`. */
  function ModelCounts(model: string, rows: Dict<seq<string>>, h: Histories, acc: Dict<Dict<int>>)
    : Result<Dict<Dict<int>>, EpochError>
    decreases |rows|
  {
    if rows == [] then Ok(acc)
    else
      var r :- RowCounts(model, rows[0].1, h, []);
      ModelCounts(model, rows[1..], h, Put(acc, rows[0].0, r))
  }

  /** The whole result of `count_epochs`, continuing from `acc`. */
  function CountsOf(paths: HistoryPaths, h: Histories, acc: Epochs): Result<Epochs, EpochError>
    decreases |paths|
  {
    if paths == [] then Ok(acc)
    else
      var m :- ModelCounts(paths[0].0, paths[0].1, h, []);
      CountsOf(paths[1..], h, Put(acc, paths[0].0, m))
  }

  /** Continue with the remaining test folds once one test fold's dictionary is complete. */
  function ThenModelCounts(r: Result<Dict<int>, EpochError>, model: string, rowName: string,
                           rest: Dict<seq<string>>, h: Histories, acc: Dict<Dict<int>>)
    : Result<Dict<Dict<int>>, EpochError>
  {
    if r.Err? then Err(r.error) else ModelCounts(model, rest, h, Put(acc, rowName, r.value))
  }

  /** Continue with the remaining models once one model's dictionary is complete. */
  function ThenCounts(r: Result<Dict<Dict<int>>, EpochError>, model: string, rest: HistoryPaths, h: Histories, acc: Epochs)
    : Result<Epochs, EpochError>
  {
    if r.Err? then Err(r.error) else CountsOf(rest, h, Put(acc, model, r.value))
  }

  method CountEpochs(historyPaths: HistoryPaths, h: Histories) returns (r: Result<Epochs, EpochError>)
    ensures r == CountsOf(historyPaths, h, [])
  {
    var modelDfs: Epochs := [];
    for mi := 0 to |historyPaths|
      invariant CountsOf(historyPaths, h, []) == CountsOf(historyPaths[mi..], h, modelDfs)
    {
      var model := historyPaths[mi].0;
      var rows := historyPaths[mi].1;
      assert historyPaths[mi..][1..] == historyPaths[mi + 1..];
      var perModel: Dict<Dict<int>> := [];
      for ri := 0 to |rows|
        invariant CountsOf(historyPaths, h, [])
               == ThenCounts(ModelCounts(model, rows[ri..], h, perModel), model, historyPaths[mi + 1..], h, modelDfs)
      {
        var rowName := rows[ri].0;
        var paths := rows[ri].1;
        assert rows[ri..][1..] == rows[ri + 1..];
        var perRow: Dict<int> := [];
        for pi := 0 to |paths|
          invariant CountsOf(historyPaths, h, [])
                 == ThenCounts(ThenModelCounts(RowCounts(model, paths[pi..], h, perRow), model, rowName,
                                               rows[ri + 1..], h, perModel),
                               model, historyPaths[mi + 1..], h, modelDfs)
        {
          var path := paths[pi];
          assert paths[pi..][1..] == paths[pi + 1..];
          if path == [] {
            return Err(EmptyPath(model));
          }
          if path !in h {
            return Err(MissingHistory(path));
          }
          var minIndex := BestEpoch(h[path]);
          var colName := ColumnName(path);
          if colName.Err? {
            return Err(colName.error);
          }
          perRow := Put(perRow, colName.value, minIndex);
        }
        perModel := Put(perModel, rowName, perRow);
      }
      modelDfs := Put(modelDfs, model, perModel);
    }
    return Ok(modelDfs);
  }

  /** A row succeeds exactly when every one of its paths is non-empty, readable and has a parent directory. */
  lemma {:induction false} RowCountsOk(model: string, paths: seq<string>, h: Histories, acc: Dict<int>)
    ensures RowCounts(model, paths, h, acc).Ok? <==> forall i :: 0 <= i < |paths| ==> PathEntry(model, paths[i], h).Ok?
    decreases |paths|
  {
    if paths != [] && PathEntry(model, paths[0], h).Ok? {
      var e := PathEntry(model, paths[0], h).value;
      RowCountsOk(model, paths[1..], h, Put(acc, e.0, e.1));
      assert forall i :: 1 <= i < |paths| ==> paths[i] == paths[1..][i - 1];
    }
  }

  /** An empty path anywhere in a fold's list stops the script instead of producing an entry. */
  lemma EmptyPathRaises(model: string, paths: seq<string>, h: Histories, acc: Dict<int>)
    requires "" in paths
    ensures RowCounts(model, paths, h, acc).Err?
  {
    RowCountsOk(model, paths, h, acc);
    var i :| 0 <= i < |paths| && paths[i] == "";
    assert PathEntry(model, paths[i], h).Err?;
  }

  /** Paths of other columns leave a column's value alone. */
  lemma {:induction false} RowCountsKeepsOther(model: string, paths: seq<string>, h: Histories, acc: Dict<int>, col: string)
    requires RowCounts(model, paths, h, acc).Ok?
    requires forall j :: 0 <= j < |paths| ==> ColumnName(paths[j]) != Ok(col)
    ensures Get(RowCounts(model, paths, h, acc).value, col) == Get(acc, col)
    decreases |paths|
  {
    if paths != [] {
      var e := PathEntry(model, paths[0], h).value;
      RowCountsKeepsOther(model, paths[1..], h, Put(acc, e.0, e.1), col);
      PutGet(acc, e.0, e.1, col);
    }
  }

  /** The value of a column is the best epoch of the last path with that column name. */
  lemma {:induction false} LastPathWins(model: string, paths: seq<string>, h: Histories, acc: Dict<int>, i: int)
    requires RowCounts(model, paths, h, acc).Ok?
    requires 0 <= i < |paths|
    requires forall j :: i < j < |paths| ==> ColumnName(paths[j]) != ColumnName(paths[i])
    ensures paths[i] in h && ColumnName(paths[i]).Ok?
    ensures Get(RowCounts(model, paths, h, acc).value, ColumnName(paths[i]).value) == Some(FirstArgMin(h[paths[i]]))
    decreases |paths|
  {
    var e := PathEntry(model, paths[0], h).value;
    if i == 0 {
      RowCountsKeepsOther(model, paths[1..], h, Put(acc, e.0, e.1), e.0);
      PutGet(acc, e.0, e.1, e.0);
    } else {
      LastPathWins(model, paths[1..], h, Put(acc, e.0, e.1), i - 1);
    }
  }

  /** A model's output has the input's test folds, in order. */
  lemma {:induction false} ModelCountsKeys(model: string, rows: Dict<seq<string>>, h: Histories, acc: Dict<Dict<int>>)
    requires ModelCounts(model, rows, h, acc).Ok?
    requires Distinct(Keys(acc) + Keys(rows))
    ensures Keys(ModelCounts(model, rows, h, acc).value) == Keys(acc) + Keys(rows)
    decreases |rows|
  {
    if rows != [] {
      var r := RowCounts(model, rows[0].1, h, []).value;
      assert Keys(rows)[0] == rows[0].0;
      DistinctHead(Keys(acc), Keys(rows));
      PutNext(acc, rows, r);
      ModelCountsKeys(model, rows[1..], h, Put(acc, rows[0].0, r));
    }
  }

  /** The counts have the input's models, in order. */
  lemma {:induction false} CountsKeys(paths: HistoryPaths, h: Histories, acc: Epochs)
    requires CountsOf(paths, h, acc).Ok?
    requires Distinct(Keys(acc) + Keys(paths))
    ensures Keys(CountsOf(paths, h, acc).value) == Keys(acc) + Keys(paths)
    decreases |paths|
  {
    if paths != [] {
      var m := ModelCounts(paths[0].0, paths[0].1, h, []).value;
      assert Keys(paths)[0] == paths[0].0;
      DistinctHead(Keys(acc), Keys(paths));
      PutNext(acc, paths, m);
      CountsKeys(paths[1..], h, Put(acc, paths[0].0, m));
    }
  }

  // ---------------------------------------------------------------------------
  // print_counts: the rows, in generation order
  // ---------------------------------------------------------------------------

  /** One row of the counts table. */
  datatype CountRow = CountRow(testFold: string, config: string, configIndex: int, validationFold: string, epochs: int)

  /** The rows of one (position, config) pair, continuing from `acc`; the config number is looked up per row. */
  function ValidationRows(testFold: string, config: string, vals: Dict<int>, configNums: map<string, int>, acc: seq<CountRow>)
    : Result<seq<CountRow>, EpochError>
    decreases |vals|
  {
    if vals == [] then Ok(acc)
    else if config !in configNums then Err(MissingConfigIndex(config))
    else ValidationRows(testFold, config, vals[1..], configNums,
                        acc + [CountRow(testFold, config, configNums[config], vals[0].0, vals[0].1)])
  }

  /** The rows of test-fold position t, config after config, continuing from `acc`. */
  function PositionRows(configs: Epochs, t: nat, configNums: map<string, int>, acc: seq<CountRow>)
    : Result<seq<CountRow>, EpochError>
    decreases |configs|
  {
    if configs == [] then Ok(acc)
    else
      var tests := configs[0].1;
      if t >= |tests| then Err(MissingTestFold(configs[0].0, t))
      else
        var acc' :- ValidationRows(tests[t].0, configs[0].0, tests[t].1, configNums, acc);
        PositionRows(configs[1..], t, configNums, acc')
  }

  /** The rows of positions t up to k, continuing from `acc`. */
  function RowsFrom(epochs: Epochs, t: nat, k: nat, configNums: map<string, int>, acc: seq<CountRow>)
    : Result<seq<CountRow>, EpochError>
    decreases k - t
  {
    if t >= k then Ok(acc)
    else
      var acc' :- PositionRows(epochs, t, configNums, acc);
      RowsFrom(epochs, t + 1, k, configNums, acc')
  }

  /** The first config's number of test folds. */
  function Positions(epochs: Epochs): nat
    requires epochs != []
  {
    |epochs[0].1|
  }

  /** The rows `print_counts` generates, before sorting. */
  function CountRowsOf(epochs: Epochs, configNums: map<string, int>): Result<seq<CountRow>, EpochError> {
    if epochs == [] then Err(NoConfigs)
    else RowsFrom(epochs, 0, Positions(epochs), configNums, [])
  }

  /** Continue with the positions after t once position t has finished. */
  function ThenRowsFrom(r: Result<seq<CountRow>, EpochError>, epochs: Epochs, t: nat, k: nat, configNums: map<string, int>)
    : Result<seq<CountRow>, EpochError>
  {
    if r.Err? then r else RowsFrom(epochs, t, k, configNums, r.value)
  }

  /** Continue with the remaining configs once one config's validation rows have finished. */
  function ThenPositionRows(r: Result<seq<CountRow>, EpochError>, configs: Epochs, t: nat, configNums: map<string, int>)
    : Result<seq<CountRow>, EpochError>
  {
    if r.Err? then r else PositionRows(configs, t, configNums, r.value)
  }

  method PrintCounts(epochs: Epochs, configNums: map<string, int>) returns (r: Result<seq<CountRow>, EpochError>)
    ensures r == CountRowsOf(epochs, configNums)
  {
    if |epochs| == 0 {
      return Err(NoConfigs);
    }
    var k := |epochs[0].1|;
    var rows: seq<CountRow> := [];
    for t := 0 to k
      invariant CountRowsOf(epochs, configNums) == RowsFrom(epochs, t, k, configNums, rows)
    {
      for ci := 0 to |epochs|
        invariant CountRowsOf(epochs, configNums)
               == ThenRowsFrom(PositionRows(epochs[ci..], t, configNums, rows), epochs, t + 1, k, configNums)
      {
        var config := epochs[ci].0;
        var tests := epochs[ci].1;
        assert epochs[ci..][1..] == epochs[ci + 1..];
        if t >= |tests| {
          return Err(MissingTestFold(config, t));
        }
        var testingFold := tests[t].0;
        var vals := tests[t].1;
        ghost var before := rows;
        for vi := 0 to |vals|
          invariant PositionRows(epochs[ci..], t, configNums, before)
                 == ThenPositionRows(ValidationRows(testingFold, config, vals[vi..], configNums, rows),
                                     epochs[ci + 1..], t, configNums)
        {
          assert vals[vi..][1..] == vals[vi + 1..];
          if config !in configNums {
            return Err(MissingConfigIndex(config));
          }
          rows := rows + [CountRow(testingFold, config, configNums[config], vals[vi].0, vals[vi].1)];
        }
      }
    }
    return Ok(rows);
  }

  /** The number of rows position t contributes: the validation folds of each config's t-th test fold. */
  function PositionSize(configs: Epochs, t: nat): nat
    decreases |configs|
  {
    if configs == [] then 0
    else (if t < |configs[0].1| then |configs[0].1[t].1| else 0) + PositionSize(configs[1..], t)
  }

  function SizeFrom(epochs: Epochs, t: nat, k: nat): nat
    decreases k - t
  {
    if t >= k then 0 else PositionSize(epochs, t) + SizeFrom(epochs, t + 1, k)
  }

  /** Every config has the t-th test fold, and every config that yields a row there has a config number. */
  predicate PositionReady(configs: Epochs, t: nat, configNums: map<string, int>) {
    forall c :: 0 <= c < |configs| ==>
      t < |configs[c].1| && (configs[c].1[t].1 != [] ==> configs[c].0 in configNums)
  }

  lemma {:induction false} ValidationRowsSpec(testFold: string, config: string, vals: Dict<int>,
                                              configNums: map<string, int>, acc: seq<CountRow>)
    ensures ValidationRows(testFold, config, vals, configNums, acc).Ok? <==> vals == [] || config in configNums
    ensures ValidationRows(testFold, config, vals, configNums, acc).Ok? ==>
      |ValidationRows(testFold, config, vals, configNums, acc).value| == |acc| + |vals|
    decreases |vals|
  {
    if vals != [] && config in configNums {
      ValidationRowsSpec(testFold, config, vals[1..], configNums,
                         acc + [CountRow(testFold, config, configNums[config], vals[0].0, vals[0].1)]);
    }
  }

  lemma {:induction false} PositionRowsSpec(configs: Epochs, t: nat, configNums: map<string, int>, acc: seq<CountRow>)
    ensures PositionRows(configs, t, configNums, acc).Ok? <==> PositionReady(configs, t, configNums)
    ensures PositionRows(configs, t, configNums, acc).Ok? ==>
      |PositionRows(configs, t, configNums, acc).value| == |acc| + PositionSize(configs, t)
    decreases |configs|
  {
    if configs != [] {
      assert forall c :: 1 <= c < |configs| ==> configs[c] == configs[1..][c - 1];
      var tests := configs[0].1;
      if t < |tests| {
        ValidationRowsSpec(tests[t].0, configs[0].0, tests[t].1, configNums, acc);
        var v := ValidationRows(tests[t].0, configs[0].0, tests[t].1, configNums, acc);
        if v.Ok? {
          PositionRowsSpec(configs[1..], t, configNums, v.value);
        }
      }
    }
  }

  lemma {:induction false} RowsFromSpec(epochs: Epochs, t: nat, k: nat, configNums: map<string, int>, acc: seq<CountRow>)
    ensures RowsFrom(epochs, t, k, configNums, acc).Ok? <==>
      forall p :: t <= p < k ==> PositionReady(epochs, p, configNums)
    ensures RowsFrom(epochs, t, k, configNums, acc).Ok? ==>
      |RowsFrom(epochs, t, k, configNums, acc).value| == |acc| + SizeFrom(epochs, t, k)
    decreases k - t
  {
    if t < k {
      PositionRowsSpec(epochs, t, configNums, acc);
      var p := PositionRows(epochs, t, configNums, acc);
      if p.Ok? {
        RowsFromSpec(epochs, t + 1, k, configNums, p.value);
      }
    }
  }

  /**
   * The counts table exists exactly when there is a config, every config has
   * at least as many test folds as the first, and every config that yields a
   * row within those positions has a config number; it then holds one row per
   * (position, config, validation fold).
   */
  lemma CountRowsOk(epochs: Epochs, configNums: map<string, int>)
    ensures CountRowsOf(epochs, configNums).Ok? <==>
      && epochs != []
      && (forall c :: 0 <= c < |epochs| ==> |epochs[c].1| >= Positions(epochs))
      && (forall c, p :: 0 <= c < |epochs| && 0 <= p < Positions(epochs) && epochs[c].1[p].1 != [] ==>
            epochs[c].0 in configNums)
    ensures CountRowsOf(epochs, configNums).Ok? ==>
      |CountRowsOf(epochs, configNums).value| == SizeFrom(epochs, 0, Positions(epochs))
  {
    if epochs != [] {
      var k := Positions(epochs);
      RowsFromSpec(epochs, 0, k, configNums, []);
      if (forall c :: 0 <= c < |epochs| ==> |epochs[c].1| >= k)
         && (forall c, p :: 0 <= c < |epochs| && 0 <= p < k && epochs[c].1[p].1 != [] ==> epochs[c].0 in configNums) {
        forall p | 0 <= p < k
          ensures PositionReady(epochs, p, configNums)
        {
        }
      }
      if forall p :: 0 <= p < k ==> PositionReady(epochs, p, configNums) {
        forall c, p | 0 <= c < |epochs| && 0 <= p < k && p < |epochs[c].1| && epochs[c].1[p].1 != []
          ensures epochs[c].0 in configNums
        {
          assert PositionReady(epochs, p, configNums);
        }
        forall c | 0 <= c < |epochs|
          ensures |epochs[c].1| >= k
        {
          if k > 0 {
            assert PositionReady(epochs, k - 1, configNums);
          }
        }
      }
    }
  }

  /** The validation rows keep `acc` in front and put validation fold j at `|acc| + j`. */
  lemma {:induction false} ValidationRowsPlace(testFold: string, config: string, vals: Dict<int>,
                                               configNums: map<string, int>, acc: seq<CountRow>)
    requires ValidationRows(testFold, config, vals, configNums, acc).Ok?
    ensures vals != [] ==> config in configNums
    ensures var rows := ValidationRows(testFold, config, vals, configNums, acc).value;
      |rows| == |acc| + |vals| && rows[..|acc|] == acc
    ensures var rows := ValidationRows(testFold, config, vals, configNums, acc).value;
      forall j :: 0 <= j < |vals| ==>
        rows[|acc| + j] == CountRow(testFold, config, configNums[config], vals[j].0, vals[j].1)
    decreases |vals|
  {
    if vals != [] {
      var acc' := acc + [CountRow(testFold, config, configNums[config], vals[0].0, vals[0].1)];
      ValidationRowsPlace(testFold, config, vals[1..], configNums, acc');
      var rows := ValidationRows(testFold, config, vals[1..], configNums, acc').value;
      assert rows[..|acc|] == acc'[..|acc|];
      forall j | 0 <= j < |vals|
        ensures rows[|acc| + j] == CountRow(testFold, config, configNums[config], vals[j].0, vals[j].1)
      {
        if j == 0 {
          assert rows[|acc|] == acc'[|acc|];
        } else {
          assert vals[j] == vals[1..][j - 1];
        }
      }
    }
  }

  /**
   * Validation fold j of config c's test fold at position p is row
   * `base + SizeFrom(epochs, from, p) + PositionSize(epochs[..c], p) + j` of
   * `rows`, with that config's number: after the rows of positions from..p-1,
   * then after those of the configs before c at position p.
   */
  predicate RowPlaced(rows: seq<CountRow>, base: int, epochs: Epochs, from: nat, p: nat, c: nat, j: nat,
                      configNums: map<string, int>)
    requires c < |epochs| && p < |epochs[c].1| && j < |epochs[c].1[p].1|
  {
    var i := base + SizeFrom(epochs, from, p) + PositionSize(epochs[..c], p) + j;
    && epochs[c].0 in configNums
    && 0 <= i < |rows|
    && rows[i] == CountRow(epochs[c].1[p].0, epochs[c].0, configNums[epochs[c].0],
                           epochs[c].1[p].1[j].0, epochs[c].1[p].1[j].1)
  }

  /** The configs before c take up `PositionSize(configs[..c], t)` rows: the first config's, then the rest's. */
  lemma PositionSizePrefix(configs: Epochs, c: nat, t: nat)
    requires 1 <= c <= |configs|
    ensures PositionSize(configs[..c], t)
         == (if t < |configs[0].1| then |configs[0].1[t].1| else 0) + PositionSize(configs[1..][..c - 1], t)
  {
    assert configs[..c][1..] == configs[1..][..c - 1];
  }

  /** The rows of position t keep `acc` in front; config c's rows come after those of the configs before c. */
  lemma {:induction false} PositionRowsPlace(configs: Epochs, t: nat, configNums: map<string, int>, acc: seq<CountRow>)
    requires PositionRows(configs, t, configNums, acc).Ok?
    ensures var rows := PositionRows(configs, t, configNums, acc).value;
      |acc| <= |rows| && rows[..|acc|] == acc
    ensures var rows := PositionRows(configs, t, configNums, acc).value;
      forall c, j :: 0 <= c < |configs| && t < |configs[c].1| && 0 <= j < |configs[c].1[t].1| ==>
        RowPlaced(rows, |acc|, configs, t, t, c, j, configNums)
    decreases |configs|
  {
    if configs != [] {
      var tests := configs[0].1;
      var acc' := ValidationRows(tests[t].0, configs[0].0, tests[t].1, configNums, acc).value;
      ValidationRowsPlace(tests[t].0, configs[0].0, tests[t].1, configNums, acc);
      PositionRowsPlace(configs[1..], t, configNums, acc');
      var rows := PositionRows(configs[1..], t, configNums, acc').value;
      assert rows[..|acc|] == acc'[..|acc|];
      forall c, j | 0 <= c < |configs| && t < |configs[c].1| && 0 <= j < |configs[c].1[t].1|
        ensures RowPlaced(rows, |acc|, configs, t, t, c, j, configNums)
      {
        if c == 0 {
          assert configs[..0] == [];
          assert rows[|acc| + j] == acc'[|acc| + j];
        } else {
          PositionSizePrefix(configs, c, t);
          assert configs[c] == configs[1..][c - 1];
          assert RowPlaced(rows, |acc'|, configs[1..], t, t, c - 1, j, configNums);
        }
      }
    }
  }

  /** The rows of positions t up to k keep `acc` in front; position p's rows come after those of positions t..p-1. */
  lemma {:induction false} RowsFromPlace(epochs: Epochs, t: nat, k: nat, configNums: map<string, int>, acc: seq<CountRow>)
    requires RowsFrom(epochs, t, k, configNums, acc).Ok?
    ensures var rows := RowsFrom(epochs, t, k, configNums, acc).value;
      |acc| <= |rows| && rows[..|acc|] == acc
    ensures var rows := RowsFrom(epochs, t, k, configNums, acc).value;
      forall p, c, j :: t <= p < k && 0 <= c < |epochs| && p < |epochs[c].1| && 0 <= j < |epochs[c].1[p].1| ==>
        RowPlaced(rows, |acc|, epochs, t, p, c, j, configNums)
    decreases k - t
  {
    if t < k {
      var acc' := PositionRows(epochs, t, configNums, acc).value;
      PositionRowsSpec(epochs, t, configNums, acc);
      PositionRowsPlace(epochs, t, configNums, acc);
      RowsFromPlace(epochs, t + 1, k, configNums, acc');
      var rows := RowsFrom(epochs, t + 1, k, configNums, acc').value;
      assert rows[..|acc|] == acc'[..|acc|];
      forall p, c, j | t <= p < k && 0 <= c < |epochs| && p < |epochs[c].1| && 0 <= j < |epochs[c].1[p].1|
        ensures RowPlaced(rows, |acc|, epochs, t, p, c, j, configNums)
      {
        if p == t {
          assert RowPlaced(acc', |acc|, epochs, t, t, c, j, configNums);
          var i := |acc| + PositionSize(epochs[..c], p) + j;
          assert rows[i] == acc'[i];
        } else {
          assert RowPlaced(rows, |acc'|, epochs, t + 1, p, c, j, configNums);
        }
      }
    }
  }

  /**
   * The counts table lists positions in order, configs in order within a
   * position and validation folds in order within a config: validation fold
   * j of config c's test fold at position p is row
   * `SizeFrom(epochs, 0, p) + PositionSize(epochs[..c], p) + j`, with that
   * config's number.
   */
  lemma CountRowsPlaced(epochs: Epochs, configNums: map<string, int>)
    requires CountRowsOf(epochs, configNums).Ok?
    ensures epochs != [] && forall c :: 0 <= c < |epochs| ==> Positions(epochs) <= |epochs[c].1|
    ensures forall p, c, j :: 0 <= p < Positions(epochs) && 0 <= c < |epochs| && 0 <= j < |epochs[c].1[p].1| ==>
      RowPlaced(CountRowsOf(epochs, configNums).value, 0, epochs, 0, p, c, j, configNums)
  {
    CountRowsOk(epochs, configNums);
    RowsFromPlace(epochs, 0, Positions(epochs), configNums, []);
  }

  // ---------------------------------------------------------------------------
  // print_stderr: the mean and the sample variance of one test fold
  // ---------------------------------------------------------------------------

  function Sum(vals: Dict<int>): int
    decreases |vals|
  {
    if vals == [] then 0 else Sum(vals[..|vals| - 1]) + vals[|vals| - 1].1
  }

  function SquaredDeviation(vals: Dict<int>, mean: real): real
    decreases |vals|
  {
    if vals == [] then 0.0
    else SquaredDeviation(vals[..|vals| - 1], mean) + (vals[|vals| - 1].1 as real - mean) * (vals[|vals| - 1].1 as real - mean)
  }

  /** The mean of the best epochs, and the sum of squared deviations over n - 1. */
  function FoldStatisticsOf(config: string, testFold: string, vals: Dict<int>): (r: Result<(real, real), EpochError>)
    ensures r.Err? <==> |vals| <= 1
  {
    if |vals| == 0 then Err(DivisionByZero(config, testFold))
    else
      var mean := Sum(vals) as real / |vals| as real;
      if |vals| == 1 then Err(DivisionByZero(config, testFold))
      else Ok((mean, SquaredDeviation(vals, mean) / (|vals| - 1) as real))
  }

  /** The two loops over a test fold's validation folds: the mean first, then the deviations. */
  method FoldStatistics(config: string, testFold: string, vals: Dict<int>) returns (r: Result<(real, real), EpochError>)
    ensures r == FoldStatisticsOf(config, testFold, vals)
  {
    var total := SumLoop(vals);
    var n := |vals|;
    if n == 0 {
      return Err(DivisionByZero(config, testFold));
    }
    var mean := total as real / n as real;
    var dev := DeviationLoop(vals, mean);
    if n - 1 == 0 {
      return Err(DivisionByZero(config, testFold));
    }
    return Ok((mean, dev / (n - 1) as real));
  }

  /** The first loop of one test fold: the sum of its best epochs. */
  method SumLoop(vals: Dict<int>) returns (total: int)
    ensures total == Sum(vals)
  {
    total := 0;
    for i := 0 to |vals|
      invariant total == Sum(vals[..i])
    {
      assert vals[..i + 1][..i] == vals[..i];
      total := total + vals[i].1;
    }
    assert vals[..|vals|] == vals;
  }

  /** The second loop of one test fold: the sum of squared deviations from the mean. */
  method DeviationLoop(vals: Dict<int>, mean: real) returns (dev: real)
    ensures dev == SquaredDeviation(vals, mean)
  {
    dev := 0.0;
    for i := 0 to |vals|
      invariant dev == SquaredDeviation(vals[..i], mean)
    {
      assert vals[..i + 1][..i] == vals[..i];
      dev := dev + (vals[i].1 as real - mean) * (vals[i].1 as real - mean);
    }
    assert vals[..|vals|] == vals;
  }

  lemma {:induction false} SumBounds(vals: Dict<int>, lo: int, hi: int)
    requires forall i :: 0 <= i < |vals| ==> lo <= vals[i].1 <= hi
    ensures |vals| * lo <= Sum(vals) <= |vals| * hi
    decreases |vals|
  {
    if vals != [] {
      var init := vals[..|vals| - 1];
      SumBounds(init, lo, hi);
      assert Sum(vals) == Sum(init) + vals[|vals| - 1].1;
      assert |vals| * lo == |init| * lo + lo;
      assert |vals| * hi == |init| * hi + hi;
    }
  }

  /** A mean of n integers lies between lo and hi when their sum lies between n * lo and n * hi. */
  lemma QuotientBetween(s: int, n: int, lo: int, hi: int)
    requires n > 0 && n * lo <= s <= n * hi
    ensures lo as real <= s as real / n as real <= hi as real
  {
    var q := s as real / n as real;
    assert q * n as real == s as real;
    assert (n * lo) as real == n as real * lo as real;
    assert (n * hi) as real == n as real * hi as real;
  }

  /** The mean lies between the smallest and the largest best epoch. */
  lemma MeanBounds(config: string, testFold: string, vals: Dict<int>, lo: int, hi: int)
    requires FoldStatisticsOf(config, testFold, vals).Ok?
    requires forall i :: 0 <= i < |vals| ==> lo <= vals[i].1 <= hi
    ensures lo as real <= FoldStatisticsOf(config, testFold, vals).value.0 <= hi as real
  {
    SumBounds(vals, lo, hi);
    QuotientBetween(Sum(vals), |vals|, lo, hi);
  }

  lemma {:induction false} SquaredDeviationNonNegative(vals: Dict<int>, mean: real)
    ensures SquaredDeviation(vals, mean) >= 0.0
    decreases |vals|
  {
    if vals != [] {
      SquaredDeviationNonNegative(vals[..|vals| - 1], mean);
      var d := vals[|vals| - 1].1 as real - mean;
      assert d * d >= 0.0;
    }
  }

  /** The variance is never negative, so the square root the script takes next is defined. */
  lemma VarianceNonNegative(config: string, testFold: string, vals: Dict<int>)
    requires FoldStatisticsOf(config, testFold, vals).Ok?
    ensures FoldStatisticsOf(config, testFold, vals).value.1 >= 0.0
  {
    var m := Sum(vals) as real / |vals| as real;
    SquaredDeviationNonNegative(vals, m);
  }

  lemma {:induction false} SquaredDeviationOfConstant(vals: Dict<int>, c: int)
    requires forall i :: 0 <= i < |vals| ==> vals[i].1 == c
    ensures Sum(vals) == |vals| * c
    ensures SquaredDeviation(vals, c as real) == 0.0
    decreases |vals|
  {
    if vals != [] {
      SquaredDeviationOfConstant(vals[..|vals| - 1], c);
    }
  }

  /** Test folds whose validation folds all agree have that epoch as mean and no spread. */
  lemma ConstantFoldHasNoSpread(config: string, testFold: string, vals: Dict<int>, c: int)
    requires |vals| >= 2
    requires forall i :: 0 <= i < |vals| ==> vals[i].1 == c
    ensures FoldStatisticsOf(config, testFold, vals) == Ok((c as real, 0.0))
  {
    SquaredDeviationOfConstant(vals, c);
    var n := |vals| as real;
    assert Sum(vals) as real == n * (c as real);
    assert Sum(vals) as real / n == c as real;
  }

  // ---------------------------------------------------------------------------
  // print_stderr: the rows
  // ---------------------------------------------------------------------------

  /** One row of the stderr table; `variance` is the value whose square root the script divides by sqrt(n). */
  datatype StderrRow = StderrRow(testFold: string, config: string, configIndex: int, mean: real, variance: real)

  /** One config's rows, test fold after test fold, continuing from `acc`. */
  function ConfigStderrRows(config: string, tests: Dict<Dict<int>>, configNums: map<string, int>, acc: seq<StderrRow>)
    : Result<seq<StderrRow>, EpochError>
    decreases |tests|
  {
    if tests == [] then Ok(acc)
    else
      var stats :- FoldStatisticsOf(config, tests[0].0, tests[0].1);
      if config !in configNums then Err(MissingConfigIndex(config))
      else ConfigStderrRows(config, tests[1..], configNums,
                            acc + [StderrRow(tests[0].0, config, configNums[config], stats.0, stats.1)])
  }

  /** The rows `print_stderr` generates, before sorting, continuing from `acc`. */
  function StderrRowsOf(epochs: Epochs, configNums: map<string, int>, acc: seq<StderrRow>)
    : Result<seq<StderrRow>, EpochError>
    decreases |epochs|
  {
    if epochs == [] then Ok(acc)
    else
      var acc' :- ConfigStderrRows(epochs[0].0, epochs[0].1, configNums, acc);
      StderrRowsOf(epochs[1..], configNums, acc')
  }

  function ThenStderrRows(r: Result<seq<StderrRow>, EpochError>, epochs: Epochs, configNums: map<string, int>)
    : Result<seq<StderrRow>, EpochError>
  {
    if r.Err? then r else StderrRowsOf(epochs, configNums, r.value)
  }

  method PrintStderr(epochs: Epochs, configNums: map<string, int>) returns (r: Result<seq<StderrRow>, EpochError>)
    ensures r == StderrRowsOf(epochs, configNums, [])
  {
    var rows: seq<StderrRow> := [];
    for ci := 0 to |epochs|
      invariant StderrRowsOf(epochs, configNums, []) == StderrRowsOf(epochs[ci..], configNums, rows)
    {
      var config := epochs[ci].0;
      var tests := epochs[ci].1;
      assert epochs[ci..][1..] == epochs[ci + 1..];
      ghost var before := rows;
      for ti := 0 to |tests|
        invariant StderrRowsOf(epochs[ci..], configNums, before)
               == ThenStderrRows(ConfigStderrRows(config, tests[ti..], configNums, rows), epochs[ci + 1..], configNums)
      {
        assert tests[ti..][1..] == tests[ti + 1..];
        var stats := FoldStatistics(config, tests[ti].0, tests[ti].1);
        if stats.Err? {
          return Err(stats.error);
        }
        if config !in configNums {
          return Err(MissingConfigIndex(config));
        }
        rows := rows + [StderrRow(tests[ti].0, config, configNums[config], stats.value.0, stats.value.1)];
      }
    }
    return Ok(rows);
  }

  /** Every test fold of a config has at least two validation folds, and the config has a number. */
  predicate FoldsReady(config: string, tests: Dict<Dict<int>>, configNums: map<string, int>) {
    forall t :: 0 <= t < |tests| ==> |tests[t].1| >= 2 && config in configNums
  }

  lemma {:induction false} ConfigStderrRowsSpec(config: string, tests: Dict<Dict<int>>, configNums: map<string, int>,
                                                acc: seq<StderrRow>)
    ensures ConfigStderrRows(config, tests, configNums, acc).Ok? <==> FoldsReady(config, tests, configNums)
    ensures ConfigStderrRows(config, tests, configNums, acc).Ok? ==>
      |ConfigStderrRows(config, tests, configNums, acc).value| == |acc| + |tests|
    decreases |tests|
  {
    if tests != [] {
      var stats := FoldStatisticsOf(config, tests[0].0, tests[0].1);
      assert forall t :: 1 <= t < |tests| ==> tests[t] == tests[1..][t - 1];
      if stats.Ok? && config in configNums {
        ConfigStderrRowsSpec(config, tests[1..], configNums,
                             acc + [StderrRow(tests[0].0, config, configNums[config], stats.value.0, stats.value.1)]);
      }
    }
  }

  function TestFoldCount(epochs: Epochs): nat
    decreases |epochs|
  {
    if epochs == [] then 0 else |epochs[0].1| + TestFoldCount(epochs[1..])
  }

  /**
   * The stderr table exists exactly when every test fold has at least two
   * validation folds and every config has a config number; it then has one
   * row per (config, test fold).
   */
  lemma {:induction false} StderrRowsOk(epochs: Epochs, configNums: map<string, int>, acc: seq<StderrRow>)
    ensures StderrRowsOf(epochs, configNums, acc).Ok? <==>
      forall c :: 0 <= c < |epochs| ==> FoldsReady(epochs[c].0, epochs[c].1, configNums)
    ensures StderrRowsOf(epochs, configNums, acc).Ok? ==>
      |StderrRowsOf(epochs, configNums, acc).value| == |acc| + TestFoldCount(epochs)
    decreases |epochs|
  {
    if epochs != [] {
      ConfigStderrRowsSpec(epochs[0].0, epochs[0].1, configNums, acc);
      assert forall c :: 1 <= c < |epochs| ==> epochs[c] == epochs[1..][c - 1];
      var v := ConfigStderrRows(epochs[0].0, epochs[0].1, configNums, acc);
      if v.Ok? {
        StderrRowsOk(epochs[1..], configNums, v.value);
      }
    }
  }
}
