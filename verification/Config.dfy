/** `ProcessTemplates` of config.go: expand every string value against the state as it was. */
module Config {
  import opened Types
  import opened Template
  import opened StateEngine

  /** The new value of one key: a string that expansion changes becomes a new string value with the
      same source and priority; anything else stays. */
  function Substitute(data: Data, v: Value): Value {
    if v.raw.Str? && Expand(data, v.raw.s, 0) != v.raw.s then
      var p := Expand(data, v.raw.s, 0);
      Value(Str(p), p, TypeString, v.source, v.priority)
    else v
  }

  /** All keys at once, each against the old state. */
  ghost function Substituted(data: Data): Data {
    Tabulate(data.Keys, k requires k in data => Substitute(data, data[k]))
  }

  predicate Changes(data: Data, k: string)
    requires k in data
  {
    data[k].raw.Str? && Expand(data, data[k].raw.s, 0) != data[k].raw.s
  }

  /** What substitution promises for a key, in terms of the old value. */
  lemma SubstitutedAt(data: Data, k: string)
    requires k in data
    ensures Substituted(data).Keys == data.Keys
    ensures var v, w := data[k], Substituted(data)[k];
            && w.source == v.source && w.priority == v.priority
            && (v.raw.Str? ==> w.raw == Str(Expand(data, v.raw.s, 0)))
            && (!v.raw.Str? ==> w == v)
            && (Changes(data, k) <==> w.raw != v.raw) && (!Changes(data, k) ==> w == v)
            && (w != v ==> w.raw.Str? && w.str == w.raw.s && w.typ == TypeString)
  {
  }

  class Config {
    const engine: Engine

    constructor (engine: Engine)
      ensures this.engine == engine
    {
      this.engine := engine;
    }

    /** The keys come in any order; each is expanded against the engine's state, not against the
        copy being changed. `before` and `after` are the outcomes of the set hooks. */
    method ProcessTemplates(before: Option<string>, after: Option<string>) returns (err: Option<string>)
      requires engine.Valid()
      modifies engine
      ensures engine.Valid()
      ensures var s := old(engine.St());
              if exists k :: k in s.data && Changes(s.data, k)
              then Updates(s, Op.Update(Substituted(s.data), before, after), engine.St(), err)
              else engine.St() == s && err == None
      ensures !old(engine.closed) && before.None? ==>
                && engine.data == Substituted(old(engine.data))
                && engine.version == old(engine.version) +
                     if exists k :: k in old(engine.data) && Changes(old(engine.data), k) then 1 else 0
      ensures !old(engine.closed) && before.None? ==>
                engine.data.Keys == old(engine.data).Keys && forall k :: k in old(engine.data) ==>
                  var data := old(engine.data);
                  engine.data[k] ==
                    if data[k].raw.Str? && Expand(data, data[k].raw.s, 0) != data[k].raw.s then
                      var e := Expand(data, data[k].raw.s, 0);
                      Value(Str(e), e, TypeString, data[k].source, data[k].priority)
                    else data[k]
      ensures engine.version == old(engine.version) <==>
                || old(engine.closed)
                || (forall k :: k in old(engine.data) && old(engine.data)[k].raw.Str? ==>
                      Expand(old(engine.data), old(engine.data)[k].raw.s, 0) == old(engine.data)[k].raw.s)
                || before.Some?
    {
      SubstitutedValues(engine.data);
      hide Expand, Substitute, Changes;
      var state := engine.data;
      var data, changed := SubstituteAll(state);
      if changed {
        err := engine.Update(data, before, after);
      } else {
        NothingChanged(state);
        err := None;
      }
    }
  }

  lemma SubstitutedValues(data: Data)
    ensures Substituted(data).Keys == data.Keys
    ensures forall k :: k in data ==>
              Substituted(data)[k] ==
                if data[k].raw.Str? && Expand(data, data[k].raw.s, 0) != data[k].raw.s then
                  var e := Expand(data, data[k].raw.s, 0);
                  Value(Str(e), e, TypeString, data[k].source, data[k].priority)
                else data[k]
    ensures (exists k :: k in data && Changes(data, k)) <==>
              exists k :: k in data && data[k].raw.Str? && Expand(data, data[k].raw.s, 0) != data[k].raw.s
  {
  }

  lemma NothingChanged(data: Data)
    requires forall k :: k in data ==> !Changes(data, k)
    ensures Substituted(data) == data
  {
    hide Expand;
    assert forall k :: k in data ==> !Changes(data, k) && Substitute(data, data[k]) == data[k];
  }

  /** The loop over the copied map. */
  method SubstituteAll(state: Data) returns (data: Data, changed: bool)
    ensures data == Substituted(state)
    ensures changed <==> exists k :: k in state && Changes(state, k)
  {
    hide Expand;
    data, changed := state, false;
    var todo := state.Keys;
    while todo != {}
      invariant todo <= state.Keys && data.Keys == state.Keys
      invariant forall k :: k in state ==> data[k] == if k in todo then state[k] else Substitute(state, state[k])
      invariant changed <==> exists k :: k in state && k !in todo && Changes(state, k)
      decreases |todo|
    {
      var k :| k in todo;
      var value := data[k];
      if value.raw.Str? {
        var processed := ProcessTemplateDepth(state, value.raw.s, 0);
        if processed != value.raw.s {
          assert Changes(state, k);
          data := data[k := Value(Str(processed), processed, TypeString, value.source, value.priority)];
          changed := true;
        }
      }
      todo := todo - {k};
    }
  }

  /** A substitution is announced as updates of exactly the changed keys. */
  lemma SubstitutionEvents(data: Data, events: seq<Event>)
    requires Describes(events, data, Substituted(data))
    ensures forall e :: e in events ==> e.Updated? && e.key in data && e.old_ == data[e.key]
    ensures forall k :: k in data && Changes(data, k) ==>
              Updated(k, data[k], Substitute(data, data[k])) in events
  {
    hide Expand;
    forall k | k in data && Changes(data, k)
      ensures Updated(k, data[k], Substitute(data, data[k])) in events
    {
      SubstitutedAt(data, k);
      assert EventFor(data, Substituted(data), k) == Some(Updated(k, data[k], Substitute(data, data[k])));
    }
  }
}
