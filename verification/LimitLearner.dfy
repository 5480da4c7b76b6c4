/**
 Per-endpoint memory of the ceiling, learned from what endpoints state and from what is inferred.

 `Learner` updates its two dictionaries; `Governing` says, from one endpoint's own history alone,
 what it should answer; `LearnsFromItsOwnHistory` relates the two over every history.
 */
module LimitLearner {
  import opened Wrappers

  type Key = (string, string)

  /** A ceiling an endpoint stated, or one inferred from a truncation. */
  datatype Observation = Stated(key: Key, limit: int) | Inferred(key: Key, limit: int)

  datatype Memory = Memory(learned: map<Key, int>, pending: map<Key, seq<int>>)

  const NOTHING := Memory(map[], map[])

  function Least(xs: seq<int>): (m: int)
    requires xs != []
    ensures m in xs && forall x | x in xs :: m <= x
  {
    if |xs| == 1 then xs[0]
    else
      var rest := Least(xs[1..]);
      assert forall x | x in xs :: x == xs[0] || x in xs[1..];
      if xs[0] <= rest then xs[0] else rest
  }

  function Sightings(m: Memory, key: Key): seq<int> {
    if key in m.pending then m.pending[key] else []
  }

  function Learnt(m: Memory, o: Observation, confirmations: nat): Memory {
    if o.limit <= 0 then m
    else match o
      case Stated(key, limit) => Memory(m.learned[key := limit], m.pending - {key})
      case Inferred(key, limit) =>
        var seen := Sightings(m, key) + [limit];
        if |seen| >= confirmations then Memory(m.learned[key := Least(seen)], m.pending - {key})
        else m.(pending := m.pending[key := seen])
  }

  class Learner {
    const confirmations: nat
    var learned: map<Key, int>
    var pending: map<Key, seq<int>>

    ghost function Now(): Memory
      reads this
    {
      Memory(learned, pending)
    }

    constructor (confirmations: int)
      ensures this.confirmations == if confirmations < 1 then 1 else confirmations
      ensures Now() == NOTHING
    {
      this.confirmations := if confirmations < 1 then 1 else confirmations;
      learned, pending := map[], map[];
    }

    static function KeyOf(model: Option<string>, baseUrl: Option<string>): Key {
      (if model.Some? then model.value else "", if baseUrl.Some? then baseUrl.value else "")
    }

    method Get(model: Option<string>, baseUrl: Option<string>) returns (limit: Option<int>)
      ensures limit == Governs(Now(), KeyOf(model, baseUrl))
    {
      var key := KeyOf(model, baseUrl);
      limit := if key in learned then Some(learned[key]) else None;
    }

    method LearnExact(model: Option<string>, baseUrl: Option<string>, limit: int)
      modifies this
      ensures Now() == Learnt(old(Now()), Stated(KeyOf(model, baseUrl), limit), confirmations)
    {
      if limit > 0 {
        var key := KeyOf(model, baseUrl);
        learned := learned[key := limit];
        pending := pending - {key};
      }
    }

    method Observe(model: Option<string>, baseUrl: Option<string>, limit: int)
      modifies this
      ensures Now() == Learnt(old(Now()), Inferred(KeyOf(model, baseUrl), limit), confirmations)
    {
      if limit <= 0 {
        return;
      }
      var key := KeyOf(model, baseUrl);
      if key !in pending {
        pending := pending[key := []];
      }
      pending := pending[key := pending[key] + [limit]];
      if |pending[key]| >= confirmations {
        learned := learned[key := Least(pending[key])];
        pending := pending - {key};
        assert pending == old(pending) - {key};
      } else {
        assert pending == old(pending)[key := Sightings(Memory(old(learned), old(pending)), key) + [limit]];
      }
    }
  }

  function Governs(m: Memory, key: Key): Option<int> {
    if key in m.learned then Some(m.learned[key]) else None
  }

  /** An endpoint is its model and its base URL, either of which may be left out; no other endpoint's
      observation changes what governs it. */
  lemma EndpointsAreApart(m: Memory, model: Option<string>, url: Option<string>, model': Option<string>, url': Option<string>,
                          limit: int, confirmations: nat)
    ensures var same := model.UnwrapOr("") == model'.UnwrapOr("") && url.UnwrapOr("") == url'.UnwrapOr("");
            && (Learner.KeyOf(model, url) == Learner.KeyOf(model', url') <==> same)
            && (!same ==>
                  && Governs(Learnt(m, Stated(Learner.KeyOf(model', url'), limit), confirmations), Learner.KeyOf(model, url))
                     == Governs(m, Learner.KeyOf(model, url))
                  && Governs(Learnt(m, Inferred(Learner.KeyOf(model', url'), limit), confirmations), Learner.KeyOf(model, url))
                     == Governs(m, Learner.KeyOf(model, url)))
  {
  }

  /** The memory after a history, the newest observation last. */
  function After(history: seq<Observation>, confirmations: nat): Memory {
    if history == [] then NOTHING
    else Learnt(After(history[..|history| - 1], confirmations), history[|history| - 1], confirmations)
  }

  // ---- what one endpoint's own history says ----

  /** The observations that count for an endpoint: its own, of a positive limit. */
  function Own(history: seq<Observation>, key: Key): seq<Observation> {
    if history == [] then []
    else
      var o := history[|history| - 1];
      Own(history[..|history| - 1], key) + if o.key == key && o.limit > 0 then [o] else []
  }

  /** Where the last stated limit stands, counted from 1; 0 without one. */
  function LastStated(own: seq<Observation>): (n: nat)
    ensures n <= |own|
    ensures n > 0 ==> own[n - 1].Stated?
    ensures forall i | n <= i < |own| :: own[i].Inferred?
  {
    if own == [] then 0 else if own[|own| - 1].Stated? then |own| else LastStated(own[..|own| - 1])
  }

  /** The limits inferred since then. */
  function Since(own: seq<Observation>): seq<int> {
    var n := LastStated(own);
    seq(|own| - n, i requires 0 <= i < |own| - n => own[n + i].limit)
  }

  /** The sightings in whole groups, out of `n`. */
  function Whole(n: nat, confirmations: nat): (whole: nat)
    requires confirmations >= 1
    ensures whole <= n && (whole > 0 ==> whole >= confirmations)
  {
    NextInGroup(n, confirmations);
    var whole := n - n % confirmations;
    if whole > 0 then WholeHasGroup(n, confirmations); whole else whole
  }

  /** Sightings are taken in groups of `confirmations` since the last stated limit. The least of the
      last whole group governs; before there is one, the stated limit does, if any. */
  function Governing(own: seq<Observation>, confirmations: nat): Option<int>
    requires confirmations >= 1
  {
    var since := Since(own);
    var whole := Whole(|since|, confirmations);
    if whole > 0 then Some(Least(since[whole - confirmations..whole]))
    else if LastStated(own) > 0 then Some(own[LastStated(own) - 1].limit)
    else None
  }

  /** The sightings of the group under way. */
  function UnderWay(own: seq<Observation>, confirmations: nat): seq<int>
    requires confirmations >= 1
  {
    var since := Since(own);
    since[Whole(|since|, confirmations)..]
  }

  lemma NextInGroup(n: nat, c: nat)
    requires c >= 1
    ensures n % c + 1 < c ==> (n + 1) % c == n % c + 1
    ensures n % c + 1 >= c ==> n % c + 1 == c && (n + 1) % c == 0
    ensures n % c <= n
  {
    var q, r := n / c, n % c;
    assert n == q * c + r;
    if r + 1 < c {
      assert n + 1 == q * c + (r + 1);
      DivMod(n + 1, c, q, r + 1);
    } else {
      assert (q + 1) * c == q * c + c;
      DivMod(n + 1, c, q + 1, 0);
    }
  }

  lemma DivMod(n: nat, c: nat, q: nat, r: nat)
    requires c >= 1 && n == q * c + r && r < c
    ensures n % c == r
  {
    var q', r' := n / c, n % c;
    assert n == q' * c + r';
    MulLe(q + 1, if q' > q then q' else q + 1, c);
    MulLe(q' + 1, if q > q' then q else q' + 1, c);
  }

  lemma MulLe(a: nat, b: nat, c: nat)
    requires a <= b
    ensures a * c <= b * c
    ensures a >= 1 ==> a * c == (a - 1) * c + c
  {
  }

  lemma WholeHasGroup(n: nat, c: nat)
    requires c >= 1 && n - n % c > 0
    ensures n - n % c >= c
  {
    assert n == (n / c) * c + n % c;
    MulLe(1, n / c, c);
  }

  lemma StatedEndsTheGroup(own: seq<Observation>, o: Observation)
    requires o.Stated?
    ensures LastStated(own + [o]) == |own| + 1 && Since(own + [o]) == []
  {
  }

  lemma InferredJoinsTheGroup(own: seq<Observation>, o: Observation)
    requires o.Inferred?
    ensures LastStated(own + [o]) == LastStated(own) && Since(own + [o]) == Since(own) + [o.limit]
  {
    assert (own + [o])[..|own|] == own;
  }

  /** One more sighting, as the groups see it. */
  lemma GroupsGrow(since: seq<int>, x: int, c: nat)
    requires c >= 1
    ensures var whole, now := Whole(|since|, c), since + [x];
            && (|since| - whole + 1 < c ==>
                  Whole(|now|, c) == whole && now[whole..] == since[whole..] + [x]
                  && (whole > 0 ==> now[whole - c..whole] == since[whole - c..whole]))
            && (|since| - whole + 1 >= c ==>
                  Whole(|now|, c) == |now| >= c && now[|now| - c..|now|] == since[whole..] + [x])
  {
    NextInGroup(|since|, c);
  }

  /** One more own observation. */
  lemma OwnGrows(own: seq<Observation>, o: Observation, confirmations: nat)
    requires confirmations >= 1
    ensures var now := own + [o];
            if o.Stated? then Governing(now, confirmations) == Some(o.limit) && UnderWay(now, confirmations) == []
            else
              var seen := UnderWay(own, confirmations) + [o.limit];
              if |seen| >= confirmations then
                Governing(now, confirmations) == Some(Least(seen)) && UnderWay(now, confirmations) == []
              else Governing(now, confirmations) == Governing(own, confirmations) && UnderWay(now, confirmations) == seen
  {
    hide LastStated, Since, Least, Whole;
    if o.Stated? {
      StatedEndsTheGroup(own, o);
    } else {
      InferredJoinsTheGroup(own, o);
      GroupsGrow(Since(own), o.limit, confirmations);
    }
  }

  lemma NothingGoverns(confirmations: nat)
    requires confirmations >= 1
    ensures Governing([], confirmations) == None && UnderWay([], confirmations) == []
  {
    assert Since([]) == [];
  }

  /** After any history over any endpoints, what is learnt of one, and what is pending for it, are
      functions of its own observations: nothing another endpoint did, and no limit that is not
      positive, matters. What governs is positive, and less than a whole group is ever pending. */
  lemma {:induction false} LearnsFromItsOwnHistory(history: seq<Observation>, key: Key, confirmations: nat)
    requires confirmations >= 1
    ensures var m, own := After(history, confirmations), Own(history, key);
            && Governs(m, key) == Governing(own, confirmations)
            && Sightings(m, key) == UnderWay(own, confirmations)
            && |Sightings(m, key)| < confirmations
            && (Governs(m, key).Some? ==> Governs(m, key).value > 0)
            && (forall x | x in Sightings(m, key) :: x > 0)
  {
    hide Governing, UnderWay, Least;
    if history == [] {
      NothingGoverns(confirmations);
    } else {
      var before, o := history[..|history| - 1], history[|history| - 1];
      LearnsFromItsOwnHistory(before, key, confirmations);
      if o.key == key && o.limit > 0 {
        OwnGrows(Own(before, key), o, confirmations);
      } else {
        assert Own(history, key) == Own(before, key);
      }
    }
  }
}
