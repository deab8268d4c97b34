/**
 * `errors`: files every message the validator reported under the second
 * `.`-segment of its path, skipping paths inside array elements, and
 * memoises the result on the form instance.
 */
module FormErrors {
  import opened Wrappers
  import opened ErrorPaths

  /** The validator's report: path -> messages, in the order it produced them. */
  type PathErrors = seq<(string, seq<string>)>

  /** The accumulated `ActiveModel::Errors`: (attribute, message) pairs in the order added. */
  type ErrorLog = seq<(string, string)>

  /** `nil.to_sym`: the path has no second segment to file its messages under. */
  datatype AggregateError = NoSecondSegment(path: string)

  /** What one path adds: each of its messages under its second segment, none for an array path. */
  function FiledUnder(path: string, msgs: seq<string>): (r: Result<ErrorLog, AggregateError>)
    ensures r.Err? <==> !IsArrayError(path) && msgs != [] && SecondSegment(path).None?
    ensures r.Err? ==> r.error.path == path
    ensures IsArrayError(path) ==> r == Ok([])
    ensures r.Ok? && !IsArrayError(path) ==>
      && |r.value| == |msgs|
      && forall j :: 0 <= j < |msgs| ==> Some(r.value[j].0) == SecondSegment(path) && r.value[j].1 == msgs[j]
  {
    if IsArrayError(path) || msgs == [] then Ok([])
    else
      match SecondSegment(path)
      case None => Err(NoSecondSegment(path))
      case Some(attr) => Ok(seq(|msgs|, j requires 0 <= j < |msgs| => (attr, msgs[j])))
  }

  /** One log followed by another; the first failure wins. */
  function Then(x: Result<ErrorLog, AggregateError>, y: Result<ErrorLog, AggregateError>): (r: Result<ErrorLog, AggregateError>)
    ensures r.Ok? <==> x.Ok? && y.Ok?
    ensures x.Err? ==> r == x
  {
    match x
    case Err(err) => Err(err)
    case Ok(first) =>
      match y
      case Err(err) => Err(err)
      case Ok(second) => Ok(first + second)
  }

  lemma ThenAssoc(x: Result<ErrorLog, AggregateError>, y: Result<ErrorLog, AggregateError>, z: Result<ErrorLog, AggregateError>)
    ensures Then(Then(x, y), z) == Then(x, Then(y, z))
  {
    if x.Ok? && y.Ok? && z.Ok? {
      assert x.value + y.value + z.value == x.value + (y.value + z.value);
    }
  }

  /** The log after processing every path of `errs` in order, or the first failure. */
  function Aggregate(errs: PathErrors): (r: Result<ErrorLog, AggregateError>)
    ensures r.Ok? <==> forall i :: 0 <= i < |errs| ==> FiledUnder(errs[i].0, errs[i].1).Ok?
  {
    if errs == [] then Ok([])
    else
      assert forall i :: 0 <= i < |errs| - 1 ==> errs[..|errs| - 1][i] == errs[i];
      var last := errs[|errs| - 1];
      Then(Aggregate(errs[..|errs| - 1]), FiledUnder(last.0, last.1))
  }

  /** `errors[attr]`: the messages filed under `attr`, in order. */
  function MessagesFor(log: ErrorLog, attr: string): (r: seq<string>)
    ensures |r| <= |log|
    ensures forall j :: 0 <= j < |r| ==> (attr, r[j]) in log
    ensures (forall j :: 0 <= j < |log| ==> log[j].0 != attr) ==> r == []
  {
    if log == [] then []
    else MessagesFor(log[..|log| - 1], attr) + (if log[|log| - 1].0 == attr then [log[|log| - 1].1] else [])
  }

  /** The path is not inside an array element and its second segment is `attr`. */
  predicate Owns(path: string, attr: string) {
    !IsArrayError(path) && SecondSegment(path) == Some(attr)
  }

  /** All messages of the paths that `attr` owns, path by path, in order. */
  function OwnedMessages(errs: PathErrors, attr: string): seq<string>
  {
    if errs == [] then []
    else
      var last := errs[|errs| - 1];
      OwnedMessages(errs[..|errs| - 1], attr) + (if Owns(last.0, attr) then last.1 else [])
  }

  /** Processing `a` then `b` is processing `a + b`; a failure in `a` is final. */
  lemma {:induction false} AggregateAppend(a: PathErrors, b: PathErrors)
    ensures Aggregate(a + b) == Then(Aggregate(a), Aggregate(b))
    decreases |b|
  {
    if b == [] {
      assert a + b == a;
      if Aggregate(a).Ok? {
        assert Aggregate(a).value + [] == Aggregate(a).value;
      }
    } else {
      var init := b[..|b| - 1];
      var last := b[|b| - 1];
      assert b == init + [last];
      assert a + b == (a + init) + [last];
      AggregateSnoc(a + init, last);
      AggregateSnoc(init, last);
      AggregateAppend(a, init);
      ThenAssoc(Aggregate(a), Aggregate(init), FiledUnder(last.0, last.1));
    }
  }

  /** One more path after `errs`. */
  lemma AggregateSnoc(errs: PathErrors, e: (string, seq<string>))
    ensures Aggregate(errs + [e]) == Then(Aggregate(errs), FiledUnder(e.0, e.1))
  {
    assert (errs + [e])[..|errs|] == errs;
  }

  /** A failed aggregate reports the failure of the first path that cannot be filed. */
  lemma {:induction false} AggregateFirstFailure(errs: PathErrors)
    requires Aggregate(errs).Err?
    ensures exists i :: (0 <= i < |errs| && FiledUnder(errs[i].0, errs[i].1) == Err(Aggregate(errs).error) &&
      forall j :: 0 <= j < i ==> FiledUnder(errs[j].0, errs[j].1).Ok?)
  {
    var init := errs[..|errs| - 1];
    assert forall i :: 0 <= i < |init| ==> init[i] == errs[i];
    if Aggregate(init).Err? {
      AggregateFirstFailure(init);
    }
  }

  /** Aggregation fails exactly when some non-array path with messages has no second segment. */
  lemma {:induction false} AggregateOkIff(errs: PathErrors)
    ensures Aggregate(errs).Ok? <==>
      forall i :: 0 <= i < |errs| && !IsArrayError(errs[i].0) && errs[i].1 != [] ==> SecondSegment(errs[i].0).Some?
  {
    if errs != [] {
      var init := errs[..|errs| - 1];
      AggregateOkIff(init);
      assert forall i :: 0 <= i < |init| ==> init[i] == errs[i];
    }
  }

  /** A path containing `[digits]` contributes nothing, wherever it stands. */
  lemma ArrayPathIgnored(a: PathErrors, path: string, msgs: seq<string>, b: PathErrors)
    requires IsArrayError(path)
    ensures Aggregate(a + [(path, msgs)] + b) == Aggregate(a + b)
  {
    AggregateAppend(a + [(path, msgs)], b);
    AggregateAppend(a, [(path, msgs)]);
    AggregateAppend(a, b);
    var single: PathErrors := [(path, msgs)];
    assert single[..|single| - 1] == [];
    assert Aggregate(single[..|single| - 1]) == Ok([]);
    assert single[|single| - 1] == (path, msgs);
    var none: ErrorLog := [];
    assert none + none == none;
    assert FiledUnder(path, msgs) == Ok([]);
    assert Aggregate(single) == Ok([]);
    if Aggregate(a).Ok? {
      assert Aggregate(a).value + [] == Aggregate(a).value;
    }
  }

  lemma {:induction false} MessagesForAppend(a: ErrorLog, b: ErrorLog, attr: string)
    ensures MessagesFor(a + b, attr) == MessagesFor(a, attr) + MessagesFor(b, attr)
    decreases |b|
  {
    if b == [] {
      assert a + b == a;
    } else {
      var init := b[..|b| - 1];
      assert (a + b)[..|a + b| - 1] == a + init;
      MessagesForAppend(a, init, attr);
    }
  }

  lemma {:induction false} MessagesForFiled(path: string, msgs: seq<string>, attr: string)
    requires FiledUnder(path, msgs).Ok?
    ensures MessagesFor(FiledUnder(path, msgs).value, attr) == if Owns(path, attr) then msgs else []
    decreases |msgs|
  {
    if msgs != [] && !IsArrayError(path) {
      var init := msgs[..|msgs| - 1];
      var last := msgs[|msgs| - 1];
      var log := FiledUnder(path, msgs).value;
      FiledUnderSnoc(path, msgs);
      assert log == FiledUnder(path, init).value + [(SecondSegment(path).value, last)];
      MessagesForSnoc(FiledUnder(path, init).value, (SecondSegment(path).value, last), attr);
      MessagesForFiled(path, init, attr);
      if Owns(path, attr) {
        assert init + [last] == msgs;
      }
    }
  }

  /** One more log entry after `log`. */
  lemma MessagesForSnoc(log: ErrorLog, e: (string, string), attr: string)
    ensures MessagesFor(log + [e], attr) == MessagesFor(log, attr) + (if e.0 == attr then [e.1] else [])
  {
    assert (log + [e])[..|log|] == log;
  }

  /** The log of a path's messages is the log of all but its last message, then the last one. */
  lemma FiledUnderSnoc(path: string, msgs: seq<string>)
    requires msgs != [] && !IsArrayError(path) && SecondSegment(path).Some?
    ensures |FiledUnder(path, msgs).value| == |msgs|
    ensures FiledUnder(path, msgs).value[..|msgs| - 1] == FiledUnder(path, msgs[..|msgs| - 1]).value
    ensures FiledUnder(path, msgs).value[|msgs| - 1] == (SecondSegment(path).value, msgs[|msgs| - 1])
  {
    var a := SecondSegment(path).value;
    var init := msgs[..|msgs| - 1];
    var log := FiledUnder(path, msgs).value;
    var initLog := FiledUnder(path, init).value;
    assert log == seq(|msgs|, j requires 0 <= j < |msgs| => (a, msgs[j]));
    assert initLog == seq(|init|, j requires 0 <= j < |init| => (a, init[j]));
    assert log[..|log| - 1] == initLog;
  }

  /**
   * `errors[attr]` lists, in source order and without deduplication, every
   * message of every non-array path whose second segment is `attr`, so
   * `$.account` and `$.account.name` accumulate under `account`.
   */
  lemma {:induction false} ErrorsForAttribute(errs: PathErrors, attr: string)
    requires Aggregate(errs).Ok?
    ensures MessagesFor(Aggregate(errs).value, attr) == OwnedMessages(errs, attr)
  {
    if errs != [] {
      var init := errs[..|errs| - 1];
      var last := errs[|errs| - 1];
      ErrorsForAttribute(init, attr);
      MessagesForAppend(Aggregate(init).value, FiledUnder(last.0, last.1).value, attr);
      MessagesForFiled(last.0, last.1, attr);
    }
  }

  lemma AggregateOne(path: string, msgs: seq<string>)
    ensures Aggregate([(path, msgs)]) == FiledUnder(path, msgs)
  {
    var errs: PathErrors := [(path, msgs)];
    assert errs[..0] == [];
    if FiledUnder(path, msgs).Ok? {
      assert [] + FiledUnder(path, msgs).value == FiledUnder(path, msgs).value;
    }
  }

  /** A path `root.attr...` with no `[` in it is owned by `attr`. */
  lemma OwnsPlainPath(root: string, attr: string, rest: string)
    requires '.' !in root && '.' !in attr && attr != ""
    requires rest == "" || rest[0] == '.'
    requires '[' !in root && '[' !in attr && '[' !in rest
    ensures Owns(root + "." + attr + rest, attr)
  {
    SecondSegmentOf(root, attr, rest);
    var p := root + "." + attr + rest;
    assert forall i :: 0 <= i < |p| ==> p[i] != '[' by {
      forall i | 0 <= i < |p| ensures p[i] != '[' {
        assert p[i] in root || p[i] == '.' || p[i] in attr || p[i] in rest;
      }
    }
  }

  /** `$.name` with messages `msgs` gives `errors[:name] == msgs`. */
  lemma TopLevelErrors(root: string, attr: string, msgs: seq<string>)
    requires '.' !in root && '.' !in attr && attr != ""
    requires '[' !in root && '[' !in attr
    ensures Aggregate([(root + "." + attr, msgs)]).Ok?
    ensures MessagesFor(Aggregate([(root + "." + attr, msgs)]).value, attr) == msgs
  {
    OwnsPlainPath(root, attr, "");
    assert root + "." + attr + "" == root + "." + attr;
    AggregateOne(root + "." + attr, msgs);
    MessagesForFiled(root + "." + attr, msgs, attr);
  }

  /** A path through an array element, `$.friends[0].name`, adds nothing to the parent's errors. */
  lemma NestedArrayErrors(root: string, field: string, index: string, rest: string, msgs: seq<string>)
    requires index != "" && forall k :: 0 <= k < |index| ==> IsDigit(index[k])
    ensures Aggregate([(root + "." + field + "[" + index + "]" + rest, msgs)]) == Ok([])
  {
    var p := root + "." + field + "[" + index + "]" + rest;
    var i := |root| + 1 + |field|;
    assert IndexMarkerAt(p, i, i + |index| + 1) by {
      assert p[i] == '[';
      assert p[i + |index| + 1] == ']';
      assert forall m :: i < m < i + |index| + 1 ==> p[m] == index[m - i - 1];
    }
    AggregateOne(p, msgs);
  }

  /** Messages of `root.attr` and `root.attr.sub` accumulate under `attr`, in order, none dropped. */
  lemma SiblingPathsAccumulate(root: string, attr: string, sub: string, ms1: seq<string>, ms2: seq<string>)
    requires '.' !in root && '.' !in attr && attr != ""
    requires '[' !in root && '[' !in attr && '[' !in sub
    ensures Aggregate([(root + "." + attr, ms1), (root + "." + attr + "." + sub, ms2)]).Ok?
    ensures MessagesFor(Aggregate([(root + "." + attr, ms1), (root + "." + attr + "." + sub, ms2)]).value, attr) == ms1 + ms2
  {
    var p1 := root + "." + attr;
    var p2 := root + "." + attr + "." + sub;
    OwnsField(root, attr);
    OwnsSubField(root, attr, sub);
    TwoOwnedPaths(p1, ms1, p2, ms2, attr);
  }

  lemma OwnsField(root: string, attr: string)
    requires '.' !in root && '.' !in attr && attr != ""
    requires '[' !in root && '[' !in attr
    ensures Owns(root + "." + attr, attr)
  {
    OwnsPlainPath(root, attr, "");
    assert root + "." + attr + "" == root + "." + attr;
  }

  lemma OwnsSubField(root: string, attr: string, sub: string)
    requires '.' !in root && '.' !in attr && attr != ""
    requires '[' !in root && '[' !in attr && '[' !in sub
    ensures Owns(root + "." + attr + "." + sub, attr)
  {
    OwnsPlainPath(root, attr, "." + sub);
    assert root + "." + attr + ("." + sub) == root + "." + attr + "." + sub;
  }

  /** Two paths that `attr` owns file their messages under it, one run after the other. */
  lemma TwoOwnedPaths(p1: string, ms1: seq<string>, p2: string, ms2: seq<string>, attr: string)
    requires Owns(p1, attr) && Owns(p2, attr)
    ensures Aggregate([(p1, ms1), (p2, ms2)]).Ok?
    ensures MessagesFor(Aggregate([(p1, ms1), (p2, ms2)]).value, attr) == ms1 + ms2
  {
    var errs: PathErrors := [(p1, ms1), (p2, ms2)];
    AggregateOkIff(errs);
    ErrorsForAttribute(errs, attr);
    var one := errs[..1];
    assert one == [(p1, ms1)] && one[..0] == [];
    assert OwnedMessages(one, attr) == ms1;
  }

  /** The nested loops of `errors`, adding message by message to a fresh accumulator. */
  method CollectErrors(errs: PathErrors) returns (r: Result<ErrorLog, AggregateError>)
    ensures r == Aggregate(errs)
  {
    var log: ErrorLog := [];
    for i := 0 to |errs|
      invariant Aggregate(errs[..i]) == Ok(log)
    {
      var (key, msgs) := errs[i];
      var step := AddMessages(log, key, msgs);
      AggregateStep(errs, i, log);
      if step.Err? {
        AggregateFailedPrefix(errs, i + 1);
        return step;
      }
      log := step.value;
    }
    assert errs[..|errs|] == errs;
    r := Ok(log);
  }

  /** One more path on top of a successful prefix. */
  lemma AggregateStep(errs: PathErrors, i: nat, log: ErrorLog)
    requires i < |errs| && Aggregate(errs[..i]) == Ok(log)
    ensures Aggregate(errs[..i + 1]) == match FiledUnder(errs[i].0, errs[i].1) case Err(err) => Err(err) case Ok(more) => Ok(log + more)
  {
    assert errs[..i + 1][..i] == errs[..i];
  }

  /** A failing prefix decides the whole aggregate. */
  lemma AggregateFailedPrefix(errs: PathErrors, i: nat)
    requires i <= |errs| && Aggregate(errs[..i]).Err?
    ensures Aggregate(errs) == Aggregate(errs[..i])
  {
    AggregateAppend(errs[..i], errs[i..]);
    assert errs[..i] + errs[i..] == errs;
  }

  /** The inner loop: adds each message of `key` to `log` unless `key` is an array path. */
  method AddMessages(log: ErrorLog, key: string, msgs: seq<string>) returns (r: Result<ErrorLog, AggregateError>)
    ensures r == match FiledUnder(key, msgs) case Err(err) => Err(err) case Ok(more) => Ok(log + more)
  {
    var acc := log;
    for j := 0 to |msgs|
      invariant FiledUnder(key, msgs[..j]).Ok?
      invariant acc == log + FiledUnder(key, msgs[..j]).value
    {
      if !IsArrayError(key) {
        var attr := SecondSegment(key);
        if attr.None? {
          return Err(NoSecondSegment(key));
        }
        acc := acc + [(attr.value, msgs[j])];
      }
      assert msgs[..j + 1][..j] == msgs[..j];
    }
    assert msgs[..|msgs|] == msgs;
    r := Ok(acc);
  }

  /**
   * A form instance's error view. `pathErrors` is what the validation engine
   * reported for this instance; `memo` is `@errors`, set by the first call
   * that completes.
   */
  class FormInstance {
    const pathErrors: PathErrors
    var memo: Option<ErrorLog>

    ghost predicate Valid()
      reads this
    {
      memo.Some? ==> Aggregate(pathErrors) == Ok(memo.value)
    }

    constructor (pathErrors: PathErrors)
      ensures Valid() && this.pathErrors == pathErrors && memo == None
    {
      this.pathErrors := pathErrors;
      memo := None;
    }

    /** `errors`: the memoised log when there is one, else a freshly collected one, then memoised. */
    method Errors() returns (r: Result<ErrorLog, AggregateError>)
      requires Valid()
      modifies this`memo
      ensures Valid()
      ensures r == Aggregate(pathErrors)
      ensures old(memo).Some? ==> r == Ok(old(memo).value) && memo == old(memo)
      ensures old(memo).None? ==> memo == if r.Ok? then Some(r.value) else None
    {
      if memo.Some? {
        return Ok(memo.value);
      }
      r := CollectErrors(pathErrors);
      if r.Ok? {
        memo := Some(r.value);
      }
    }
  }

  /** Asking a form for its errors twice gives the same answer both times. */
  method ErrorsTwice(form: FormInstance) returns (first: Result<ErrorLog, AggregateError>, second: Result<ErrorLog, AggregateError>)
    requires form.Valid()
    modifies form
    ensures first == second
  {
    first := form.Errors();
    second := form.Errors();
  }
}
