/**
 What callers see of a concurrent container. The book of a thread holds the calls it has ended, each with
 its answer, the call it is in, and the effects its accesses had on the container. A book is fair when
 every ended call has had, once and with its own argument, exactly the effect that its answer promises.
 */
module Calls {
  import opened Storage

  /** `TakeOrWait` is a take that does not come back without a value. */
  datatype Call<T> = Put(v: T) | Take | TakeOrWait | Close

  datatype Answer<T> = Accepted | Refused | Got(v: T)

  datatype Effect<T> = In(v: T) | Out(v: T)

  datatype Book<T> = Book(ended: seq<(Call<T>, Answer<T>)>, open: Option<Call<T>>, effects: seq<Effect<T>>)

  /** What one step means for one thread: a call starts, or effects happen and the call may end. */
  datatype Entry<T> = Called(call: Call<T>) | Did(effects: seq<Effect<T>>, answer: Option<Answer<T>>)

  ghost function Empty<T>(): Book<T> { Book([], None, []) }

  ghost function Noted<T>(b: Book<T>, e: Entry<T>): Book<T> {
    match e
    case Called(c) => b.(open := Some(c))
    case Did(fx, None) => b.(effects := b.effects + fx)
    case Did(fx, Some(a)) => Book(if b.open.Some? then b.ended + [(b.open.value, a)] else b.ended, None, b.effects + fx)
  }

  /** The answers a call may get. */
  ghost predicate Fitting<T>(c: Call<T>, a: Answer<T>) {
    match a
    case Accepted => c.Put? || c.Close?
    case Refused => c.Put? || c.Take?
    case Got(_) => c.Take? || c.TakeOrWait?
  }

  /** The effect that an answer promises. */
  ghost function Promised<T>(c: Call<T>, a: Answer<T>): seq<Effect<T>> {
    match a
    case Accepted => if c.Put? then [In(c.v)] else []
    case Refused => []
    case Got(v) => [Out(v)]
  }

  ghost function Due<T>(ended: seq<(Call<T>, Answer<T>)>): seq<Effect<T>> {
    if ended == [] then [] else Due(ended[..|ended| - 1]) + Promised(ended[|ended| - 1].0, ended[|ended| - 1].1)
  }

  ghost predicate Fair<T>(ended: seq<(Call<T>, Answer<T>)>) {
    forall i :: 0 <= i < |ended| ==> Fitting(ended[i].0, ended[i].1)
  }

  /** Between calls: the effects are those of the ended calls, one by one. */
  ghost predicate Rests<T>(b: Book<T>) {
    Fair(b.ended) && b.open == None && b.effects == Due(b.ended)
  }

  /** In call `c`, which has had no effect yet. */
  ghost predicate Asks<T>(b: Book<T>, c: Call<T>) {
    Fair(b.ended) && b.open == Some(c) && b.effects == Due(b.ended)
  }

  /** In call `c`, which has had its effect and will be answered with `a`. */
  ghost predicate Owes<T>(b: Book<T>, c: Call<T>, a: Answer<T>) {
    Fair(b.ended) && b.open == Some(c) && Fitting(c, a) && b.effects == Due(b.ended) + Promised(c, a)
  }

  /** In a put of something that has had its effect. */
  ghost predicate OwesPut<T>(b: Book<T>) {
    b.open.Some? && b.open.value.Put? && Owes(b, b.open.value, Accepted)
  }

  /** In a take, of either kind. */
  ghost predicate AsksTake<T>(b: Book<T>) {
    b.open.Some? && (b.open.value.Take? || b.open.value.TakeOrWait?) && Asks(b, b.open.value)
  }

  /** In a take that has got `v`. */
  ghost predicate OwesTake<T>(b: Book<T>, v: T) {
    b.open.Some? && Owes(b, b.open.value, Got(v))
  }

  /** The book of a thread that is between calls (`idle`) or in one. */
  ghost predicate Balanced<T(!new)>(b: Book<T>, idle: bool) {
    if idle then Rests(b) else b.open.Some? && (Asks(b, b.open.value) || exists a :: Owes(b, b.open.value, a))
  }

  lemma {:induction false} NothingNoted<T>(b: Book<T>)
    ensures Noted(b, Did([], None)) == b
  {
    assert b.effects + [] == b.effects;
  }

  /** The effect of a call happens. */
  lemma {:induction false} TakesEffect<T>(b: Book<T>, c: Call<T>, a: Answer<T>)
    requires Asks(b, c) && Fitting(c, a)
    ensures Owes(Noted(b, Did(Promised(c, a), None)), c, a)
  {
  }

  /** The call ends with the answer its effect calls for. */
  lemma {:induction false} Ends<T>(b: Book<T>, c: Call<T>, a: Answer<T>)
    requires Owes(b, c, a)
    ensures Rests(Noted(b, Did([], Some(a))))
  {
    assert (b.ended + [(c, a)])[..|b.ended|] == b.ended;
    assert b.effects + [] == b.effects;
  }

  /** Effect and end in one step; a refusal is the case without effect. */
  lemma {:induction false} EndsAtOnce<T>(b: Book<T>, c: Call<T>, a: Answer<T>)
    requires Asks(b, c) && Fitting(c, a)
    ensures Rests(Noted(b, Did(Promised(c, a), Some(a))))
  {
    assert (b.ended + [(c, a)])[..|b.ended|] == b.ended;
  }

  // ---- All threads together ------------------------------------------------------------------

  /** Thread `t`'s part of a log. */
  ghost function By<T>(log: seq<(nat, Effect<T>)>, t: nat): seq<Effect<T>> {
    if log == [] then [] else
    By(log[..|log| - 1], t) + (if log[|log| - 1].0 == t then [log[|log| - 1].1] else [])
  }

  /** The values that went in. */
  ghost function Ins<T>(log: seq<(nat, Effect<T>)>): seq<T> {
    if log == [] then [] else
    Ins(log[..|log| - 1]) + (if log[|log| - 1].1.In? then [log[|log| - 1].1.v] else [])
  }

  /** The values that came out. */
  ghost function Outs<T>(log: seq<(nat, Effect<T>)>): seq<T> {
    if log == [] then [] else
    Outs(log[..|log| - 1]) + (if log[|log| - 1].1.Out? then [log[|log| - 1].1.v] else [])
  }

  /** The log after a step of thread `t`, which has at most one effect. */
  ghost function Logged<T>(log: seq<(nat, Effect<T>)>, t: nat, fx: seq<Effect<T>>): seq<(nat, Effect<T>)>
    requires |fx| <= 1
  {
    if fx == [] then log else log + [(t, fx[0])]
  }

  lemma {:induction false} LogExtends<T>(log: seq<(nat, Effect<T>)>, t: nat, fx: seq<Effect<T>>, u: nat)
    requires |fx| <= 1
    ensures By(Logged(log, t, fx), u) == By(log, u) + (if t == u then fx else [])
    ensures Ins(Logged(log, t, fx)) == Ins(log) + (if fx != [] && fx[0].In? then [fx[0].v] else [])
    ensures Outs(Logged(log, t, fx)) == Outs(log) + (if fx != [] && fx[0].Out? then [fx[0].v] else [])
  {
    if fx != [] {
      assert fx == [fx[0]];
      assert (log + [(t, fx[0])])[..|log|] == log;
    }
  }

  /** The histories of what went in and what came out grow by the effect of one step. */
  ghost predicate GrowBy<T>(ins: seq<T>, outs: seq<T>, ins': seq<T>, outs': seq<T>, fx: seq<Effect<T>>) {
    && |fx| <= 1
    && ins' == ins + (if fx != [] && fx[0].In? then [fx[0].v] else [])
    && outs' == outs + (if fx != [] && fx[0].Out? then [fx[0].v] else [])
  }

  /** The log is the history, and thread `t`'s part of it is in its book. */
  ghost predicate Recorded<T>(ins: seq<T>, outs: seq<T>, log: seq<(nat, Effect<T>)>, b: Book<T>, t: nat) {
    Ins(log) == ins && Outs(log) == outs && By(log, t) == b.effects
  }

  lemma {:induction false} RecordGrows<T>(ins: seq<T>, outs: seq<T>, ins': seq<T>, outs': seq<T>, fx: seq<Effect<T>>,
                                          log: seq<(nat, Effect<T>)>, u: nat, b: Book<T>, b': Book<T>, t: nat)
    requires Recorded(ins, outs, log, b, t) && GrowBy(ins, outs, ins', outs', fx)
    requires b'.effects == if u == t then b.effects + fx else b.effects
    ensures Recorded(ins', outs', Logged(log, u, fx), b', t)
  {
    LogExtends(log, u, fx, t);
  }
}
