/**
 * Running a batch of command lines against the application: strictly in
 * order, each command looked up by name, every non-zero exit status folded
 * into one failure flag.
 */
module Execution {
  import opened Wrappers
  import opened OrderedMaps
  import opened Console

  /** What a batch leaves behind: whether some command failed, and the text each wrote, in order. */
  datatype Executed = Executed(failed: bool, texts: seq<string>)

  /**
   * The batch run as `executeCommandlines` runs it; looking up a command the
   * application does not have aborts with that name.
   */
  function Execute(app: Application, batch: Batch): Result<Executed>
  {
    if batch == [] then Ok(Executed(false, []))
    else
      match Execute(app, batch[..|batch| - 1])
      case Unknown(n) => Unknown(n)
      case Ok(prev) =>
        var (name, args) := batch[|batch| - 1];
        if name !in Keys(app.all) then Unknown(name)
        else
          var outcome := app.run(name, args);
          Ok(Executed(prev.failed || outcome.status != 0, prev.texts + [outcome.text]))
  }

  /**
   * A batch runs to its end exactly when every command in it is registered;
   * it then fails exactly when some command exits with a status other than
   * 0, and the texts are those of the commands in batch order.
   */
  lemma {:induction false} ExecuteExact(app: Application, batch: Batch)
    ensures Execute(app, batch).Ok? <==> forall i :: 0 <= i < |batch| ==> batch[i].0 in Keys(app.all)
    ensures Execute(app, batch).Ok? ==>
              var e := Execute(app, batch).value;
              && (e.failed <==> exists i :: 0 <= i < |batch| && app.run(batch[i].0, batch[i].1).status != 0)
              && |e.texts| == |batch|
              && forall i :: 0 <= i < |batch| ==> e.texts[i] == app.run(batch[i].0, batch[i].1).text
  {
    if batch != [] {
      var n := |batch| - 1;
      var init := batch[..n];
      ExecuteExact(app, init);
      assert forall i :: 0 <= i < n ==> init[i] == batch[i];
      var r := Execute(app, batch);
      if r.Ok? {
        var e := r.value;
        var prev := Execute(app, init).value;
        if exists i :: 0 <= i < |batch| && app.run(batch[i].0, batch[i].1).status != 0 {
          var i :| 0 <= i < |batch| && app.run(batch[i].0, batch[i].1).status != 0;
          if i < n {
            assert app.run(init[i].0, init[i].1).status != 0;
          }
        }
      }
    }
  }

  /** An abort names the first command of the batch that is not registered. */
  lemma {:induction false} ExecuteUnknown(app: Application, batch: Batch)
    requires Execute(app, batch).Unknown?
    ensures var n := Execute(app, batch).command;
            exists i :: 0 <= i < |batch| && batch[i].0 == n && n !in Keys(app.all) &&
                        forall j :: 0 <= j < i ==> batch[j].0 in Keys(app.all)
  {
    var n := |batch| - 1;
    var init := batch[..n];
    assert forall i :: 0 <= i < n ==> init[i] == batch[i];
    if Execute(app, init).Unknown? {
      ExecuteUnknown(app, init);
      var i :| 0 <= i < n && init[i].0 == Execute(app, init).command && init[i].0 !in Keys(app.all) &&
               forall j :: 0 <= j < i ==> init[j].0 in Keys(app.all);
    } else {
      ExecuteExact(app, init);
    }
  }

  /**
   * `executeCommandlines`: runs the commands one after the other and returns
   * whether any of them exited with a status other than 0, with the text
   * they wrote to the output it was given.
   */
  method ExecuteCommandlines(app: Application, commandlines: Batch) returns (r: Result<Executed>)
    ensures r == Execute(app, commandlines)
  {
    var failbuild := false;
    var texts := [];
    for i := 0 to |commandlines|
      invariant Execute(app, commandlines[..i]) == Ok(Executed(failbuild, texts))
    {
      var (name, commandline) := commandlines[i];
      assert commandlines[..i + 1][..i] == commandlines[..i];
      if name !in Keys(app.all) {
        ExecuteStops(app, commandlines, i + 1);
        return Unknown(name);
      }
      var outcome := app.run(name, commandline);
      if outcome.status != 0 {
        failbuild := true;
      }
      texts := texts + [outcome.text];
    }
    assert commandlines[..|commandlines|] == commandlines;
    return Ok(Executed(failbuild, texts));
  }

  /** Once a prefix of a batch aborts, the whole batch aborts the same way. */
  lemma {:induction false} ExecuteStops(app: Application, batch: Batch, k: nat)
    requires k <= |batch| && Execute(app, batch[..k]).Unknown?
    ensures Execute(app, batch) == Execute(app, batch[..k])
    decreases |batch| - k
  {
    if k < |batch| {
      assert batch[..k + 1][..k] == batch[..k];
      ExecuteStops(app, batch, k + 1);
    } else {
      assert batch[..k] == batch;
    }
  }
}
