/** Merging fields by priority: envelope over payload over embedded, with the loser kept
    under a name with two underscores in front. */
module Merge {
  import opened Prelude

  datatype Value =
    | Null
    | Flag(b: bool)
    | Number(n: int)
    | Text(text: string)
    | Items(items: seq<Value>)
    | Object(members: seq<(string, Value)>)

  type Fields = map<string, Value>

  type Write = (string, Value)

  function Shadow(name: string): string {
    "__" + name
  }

  /** Inserts a value; one that it replaces is inserted under the shadow name. */
  function Override(fields: Fields, name: string, value: Value): Fields {
    if name in fields then fields[name := value][Shadow(name) := fields[name]]
    else fields[name := value]
  }

  function WriteAll(fields: Fields, ws: seq<Write>): Fields {
    if ws == [] then fields
    else Override(WriteAll(fields, ws[..|ws| - 1]), ws[|ws| - 1].0, ws[|ws| - 1].1)
  }

  function AsFields(ws: seq<Write>): Fields {
    if ws == [] then map[] else AsFields(ws[..|ws| - 1])[ws[|ws| - 1].0 := ws[|ws| - 1].1]
  }

  predicate Distinct(ws: seq<Write>) {
    forall i, j :: 0 <= i < j < |ws| ==> ws[i].0 != ws[j].0
  }

  function Lookup(fields: Fields, k: string): Option<Value> {
    if k in fields then Some(fields[k]) else None
  }

  function One(fields: Fields, k: string): seq<Value> {
    if k in fields then [fields[k]] else []
  }

  /** The three places a field can come from. */
  datatype Layers = Layers(embedded: Fields, payload: Fields, envelope: Fields) {
    /** All values given for a name, the highest priority first. */
    function Sources(k: string): seq<Value> {
      One(envelope, k) + One(payload, k) + One(embedded, k)
    }

    predicate Writes(k: string) {
      k in payload || k in envelope
    }

    /** A written name of which a lower-priority value has to give way. */
    predicate Conflicts(k: string) {
      Writes(k) && |Sources(k)| >= 2
    }

    /** No shadow name in use is written itself. */
    ghost predicate NoClash() {
      forall k :: Conflicts(k) ==> !Writes(Shadow(k))
    }

    /** Highest value under a written name, second highest under its shadow, the rest untouched. */
    function Expected(k: string): Option<Value> {
      if Writes(k) then Some(Sources(k)[0])
      else if |k| >= 2 && k[..2] == "__" && Conflicts(k[2..]) then Some(Sources(k[2..])[1])
      else Lookup(embedded, k)
    }

    ghost predicate MergedIn(r: Fields) {
      forall k :: Lookup(r, k) == Expected(k)
    }
  }

  lemma ShadowInverse(k: string)
    ensures |Shadow(k)| >= 2 && Shadow(k)[..2] == "__" && Shadow(k)[2..] == k
    ensures |k| >= 2 && k[..2] == "__" ==> Shadow(k[2..]) == k
  {
  }

  /** `after` has one more source than `before`: the value `v` on top of those for `n`. */
  ghost predicate OneOnTop(before: Layers, after: Layers, n: string, v: Value) {
    && after.embedded == before.embedded
    && after.Sources(n) == [v] + before.Sources(n)
    && (forall k :: k != n ==> after.Sources(k) == before.Sources(k))
    && (forall k :: after.Writes(k) <==> before.Writes(k) || k == n)
  }

  /** What a write replaces is the highest value so far, if no clash is ahead. */
  lemma Replaced(before: Layers, after: Layers, n: string, v: Value)
    requires OneOnTop(before, after, n, v) && after.NoClash()
    ensures before.Expected(n) == if before.Sources(n) == [] then None else Some(before.Sources(n)[0])
  {
    if !before.Writes(n) {
      if |n| >= 2 && n[..2] == "__" && before.Conflicts(n[2..]) {
        ShadowInverse(n);
        assert after.Conflicts(n[2..]);
        assert false;
      }
      assert before.Sources(n) == One(before.embedded, n);
    }
  }

  /** A name that is neither written nor its shadow keeps what is expected of it. */
  lemma OthersKeep(before: Layers, after: Layers, n: string, v: Value, k: string)
    requires OneOnTop(before, after, n, v)
    requires k != n && (k == Shadow(n) ==> !before.Conflicts(n) && !after.Conflicts(n))
    ensures after.Expected(k) == before.Expected(k)
  {
    ShadowInverse(k);
    ShadowInverse(n);
    if |k| >= 2 && k[..2] == "__" && k != Shadow(n) {
      assert k[2..] != n;
      assert after.Sources(k[2..]) == before.Sources(k[2..]);
    }
  }

  /** The shadow of a written name with a conflict is expected to hold what was there before. */
  lemma ShadowHolds(before: Layers, after: Layers, n: string, v: Value)
    requires OneOnTop(before, after, n, v) && after.NoClash() && before.Sources(n) != []
    ensures after.Conflicts(n) && after.Expected(Shadow(n)) == Some(before.Sources(n)[0])
  {
  }

  lemma WrittenHolds(before: Layers, after: Layers, n: string, v: Value)
    requires OneOnTop(before, after, n, v)
    ensures after.Expected(n) == Some(v)
  {
  }

  /** One write moves the closed form on by one source. */
  lemma OverrideMerges(before: Layers, after: Layers, r: Fields, n: string, v: Value)
    requires OneOnTop(before, after, n, v) && after.NoClash()
    requires before.MergedIn(r)
    ensures after.MergedIn(Override(r, n, v))
  {
    hide Layers.Expected;
    Replaced(before, after, n, v);
    assert Lookup(r, n) == before.Expected(n);
    ShadowInverse(n);
    WrittenHolds(before, after, n, v);
    forall k
      ensures Lookup(Override(r, n, v), k) == after.Expected(k)
    {
      assert Lookup(r, k) == before.Expected(k);
      if k == Shadow(n) && before.Sources(n) != [] {
        ShadowHolds(before, after, n, v);
      } else if k != n {
        OthersKeep(before, after, n, v, k);
      }
    }
  }

  lemma ClashComesLater(before: Layers, after: Layers, n: string, v: Value)
    requires OneOnTop(before, after, n, v) && after.NoClash()
    ensures before.NoClash()
  {
  }

  lemma {:induction false} AsFieldsKeys(ws: seq<Write>, k: string)
    ensures k in AsFields(ws) <==> exists i :: 0 <= i < |ws| && ws[i].0 == k
  {
    if ws != [] {
      var before := ws[..|ws| - 1];
      AsFieldsKeys(before, k);
      if k in AsFields(before) {
        var i :| 0 <= i < |before| && before[i].0 == k;
        assert ws[i].0 == k;
      }
      if i :| 0 <= i < |ws| && ws[i].0 == k {
        assert i < |before| ==> before[i].0 == k;
      }
    }
  }

  lemma DistinctLast(ws: seq<Write>)
    requires ws != [] && Distinct(ws)
    ensures Distinct(ws[..|ws| - 1]) && ws[|ws| - 1].0 !in AsFields(ws[..|ws| - 1])
  {
    AsFieldsKeys(ws[..|ws| - 1], ws[|ws| - 1].0);
  }

  lemma WriteOnTop(embedded: Fields, payload: Fields, envelope: Fields, n: string, v: Value)
    ensures n !in payload && envelope == map[] ==>
      OneOnTop(Layers(embedded, payload, envelope), Layers(embedded, payload[n := v], envelope), n, v)
    ensures n !in envelope ==>
      OneOnTop(Layers(embedded, payload, envelope), Layers(embedded, payload, envelope[n := v]), n, v)
  {
  }

  /** Writing the payload over the embedded fields. */
  lemma {:induction false} PayloadMerges(embedded: Fields, ws: seq<Write>)
    requires Distinct(ws)
    requires Layers(embedded, AsFields(ws), map[]).NoClash()
    ensures Layers(embedded, AsFields(ws), map[]).MergedIn(WriteAll(embedded, ws))
  {
    if ws != [] {
      hide OneOnTop, Override, Layers.NoClash, Layers.MergedIn, Distinct;
      var before, w := ws[..|ws| - 1], ws[|ws| - 1];
      DistinctLast(ws);
      var l, m := Layers(embedded, AsFields(before), map[]), Layers(embedded, AsFields(ws), map[]);
      WriteOnTop(embedded, AsFields(before), map[], w.0, w.1);
      ClashComesLater(l, m, w.0, w.1);
      PayloadMerges(embedded, before);
      OverrideMerges(l, m, WriteAll(embedded, before), w.0, w.1);
    }
  }

  /** Writing the envelope over what the payload has left. */
  lemma {:induction false} EnvelopeMerges(embedded: Fields, payload: Fields, r: Fields, ws: seq<Write>)
    requires Distinct(ws)
    requires Layers(embedded, payload, map[]).MergedIn(r)
    requires Layers(embedded, payload, AsFields(ws)).NoClash()
    ensures Layers(embedded, payload, AsFields(ws)).MergedIn(WriteAll(r, ws))
  {
    if ws != [] {
      hide OneOnTop, Override, Layers.NoClash, Layers.MergedIn, Distinct;
      var before, w := ws[..|ws| - 1], ws[|ws| - 1];
      DistinctLast(ws);
      var l, m := Layers(embedded, payload, AsFields(before)), Layers(embedded, payload, AsFields(ws));
      WriteOnTop(embedded, payload, AsFields(before), w.0, w.1);
      ClashComesLater(l, m, w.0, w.1);
      EnvelopeMerges(embedded, payload, r, before);
      OverrideMerges(l, m, WriteAll(r, before), w.0, w.1);
    }
  }

  /** The closed form of the whole merge. */
  lemma MergeClosedForm(embedded: Fields, payload: seq<Write>, envelope: seq<Write>)
    requires Distinct(payload) && Distinct(envelope)
    requires Layers(embedded, AsFields(payload), AsFields(envelope)).NoClash()
    ensures Layers(embedded, AsFields(payload), AsFields(envelope))
              .MergedIn(WriteAll(WriteAll(embedded, payload), envelope))
  {
    var all, early := Layers(embedded, AsFields(payload), AsFields(envelope)),
                      Layers(embedded, AsFields(payload), map[]);
    forall k | early.Conflicts(k)
      ensures !early.Writes(Shadow(k))
    {
      assert all.Conflicts(k);
    }
    PayloadMerges(embedded, payload);
    EnvelopeMerges(embedded, AsFields(payload), WriteAll(embedded, payload), envelope);
  }

  predicate Found(r: Fields, k: string, v: Value) {
    Lookup(r, k) == Some(v) || Lookup(r, Shadow(k)) == Some(v)
  }

  /** Each value given for a name with a conflict can be found under the name or its shadow,
      and the only value given for any other name under the name. */
  ghost predicate Retained(l: Layers, r: Fields, k: string) {
    if l.Conflicts(k) then forall v :: v in l.Sources(k) ==> Found(r, k, v)
    else l.Sources(k) != [] ==> Lookup(r, k) == Some(l.Sources(k)[0])
  }

  /** A conflict the merge resolves without loss: a third value is one of the first two, and
      a value that was under the shadow name before is the second. */
  predicate Lossless(l: Layers, n: string) {
    var sources := l.Sources(n);
    && |sources| >= 2
    && (|sources| == 3 ==> sources[2] in sources[..2])
    && (l.Sources(Shadow(n)) != [] ==> l.Sources(Shadow(n))[0] == sources[1])
  }

  /** Two different values are given for `k`. */
  predicate Differ(l: Layers, k: string) {
    exists i, j :: 0 <= i < j < |l.Sources(k)| && l.Sources(k)[i] != l.Sources(k)[j]
  }

  lemma SourcesBound(l: Layers, k: string)
    ensures |l.Sources(k)| <= 3
  {
  }

  /** What no way of merging can get around, clashes or not: of three values for one name two are the same,
      and if two values differ, the shadow name's own value, or one of its own two, is among them. */
  lemma LossForced(l: Layers, r: Fields, n: string)
    requires l.Conflicts(n) && Retained(l, r, n) && Retained(l, r, Shadow(n))
    ensures var sources, below := l.Sources(n), l.Sources(Shadow(n));
      && (|sources| == 3 ==> sources[0] == sources[1] || sources[0] == sources[2] || sources[1] == sources[2])
      && (Differ(l, n) && |below| > 0 && (l.Conflicts(Shadow(n)) ==> Differ(l, Shadow(n))) ==>
            exists v :: v in below && v in sources)
  {
    SourcesBound(l, n);
    var sources, below := l.Sources(n), l.Sources(Shadow(n));
    assert forall i :: 0 <= i < |sources| ==> Found(r, n, sources[i]);
    if Differ(l, n) && |below| > 0 && (l.Conflicts(Shadow(n)) ==> Differ(l, Shadow(n))) {
      assert exists v :: v in below && Lookup(r, Shadow(n)) == Some(v) by {
        OneUnderName(l, r, Shadow(n));
      }
      var v :| v in below && Lookup(r, Shadow(n)) == Some(v);
      OneUnderShadow(l, r, n, v);
    }
  }

  lemma OneUnderName(l: Layers, r: Fields, k: string)
    requires Retained(l, r, k) && l.Sources(k) != [] && (l.Conflicts(k) ==> Differ(l, k))
    ensures exists v :: v in l.Sources(k) && Lookup(r, k) == Some(v)
  {
    if l.Conflicts(k) {
      hide Layers.Sources;
      var i, j :| 0 <= i < j < |l.Sources(k)| && l.Sources(k)[i] != l.Sources(k)[j];
      assert Found(r, k, l.Sources(k)[i]) && Found(r, k, l.Sources(k)[j]);
    } else {
      assert l.Sources(k)[0] in l.Sources(k);
    }
  }

  lemma OneUnderShadow(l: Layers, r: Fields, k: string, v: Value)
    requires l.Conflicts(k) && Retained(l, r, k) && Differ(l, k) && Lookup(r, Shadow(k)) == Some(v)
    ensures v in l.Sources(k)
  {
    var i, j :| 0 <= i < j < |l.Sources(k)| && l.Sources(k)[i] != l.Sources(k)[j];
    assert Found(r, k, l.Sources(k)[i]) && Found(r, k, l.Sources(k)[j]);
  }

  /** In the merge the highest value is under the name and the second under the shadow. */
  lemma ConflictHolds(l: Layers, r: Fields, n: string)
    requires l.MergedIn(r) && l.NoClash() && l.Conflicts(n)
    ensures Lookup(r, n) == Some(l.Sources(n)[0]) && Lookup(r, Shadow(n)) == Some(l.Sources(n)[1])
    ensures !l.Conflicts(Shadow(n))
  {
    ShadowInverse(n);
    assert Lookup(r, n) == l.Expected(n) && Lookup(r, Shadow(n)) == l.Expected(Shadow(n));
  }

  lemma RetainedIfLossless(l: Layers, r: Fields, k: string)
    requires l.NoClash() && l.MergedIn(r)
    requires AllLossless(l)
    ensures Retained(l, r, k)
  {
    SourcesBound(l, k);
    if l.Conflicts(k) {
      ConflictHolds(l, r, k);
      assert Lossless(l, k);
      forall v | v in l.Sources(k)
        ensures Found(r, k, v)
      {
        var i :| 0 <= i < |l.Sources(k)| && l.Sources(k)[i] == v;
        assert i == 2 ==> v == l.Sources(k)[0] || v == l.Sources(k)[1];
      }
    } else if l.Sources(k) != [] {
      UnconflictedHolds(l, r, k);
    }
  }

  lemma UnconflictedHolds(l: Layers, r: Fields, k: string)
    requires l.NoClash() && l.MergedIn(r) && AllLossless(l) && !l.Conflicts(k) && l.Sources(k) != []
    ensures Lookup(r, k) == Some(l.Sources(k)[0])
  {
    assert Lookup(r, k) == l.Expected(k);
    if !l.Writes(k) && |k| >= 2 && k[..2] == "__" && l.Conflicts(k[2..]) {
      ShadowInverse(k);
      assert Lossless(l, k[2..]);
    }
  }

  lemma LosslessIfRetained(l: Layers, r: Fields, n: string)
    requires l.NoClash() && l.MergedIn(r) && l.Conflicts(n)
    requires Retained(l, r, n) && Retained(l, r, Shadow(n))
    ensures Lossless(l, n)
  {
    SourcesBound(l, n);
    ConflictHolds(l, r, n);
    if |l.Sources(n)| == 3 {
      assert Found(r, n, l.Sources(n)[2]);
      assert l.Sources(n)[..2] == [l.Sources(n)[0], l.Sources(n)[1]];
    }
  }

  ghost predicate AllRetained(l: Layers, r: Fields) {
    forall k :: Retained(l, r, k)
  }

  ghost predicate AllLossless(l: Layers) {
    forall n :: l.Conflicts(n) ==> Lossless(l, n)
  }

  lemma AllRetainedIff(l: Layers, r: Fields)
    requires l.NoClash() && l.MergedIn(r)
    ensures AllRetained(l, r) <==> AllLossless(l)
  {
    if AllLossless(l) {
      forall k
        ensures Retained(l, r, k)
      {
        RetainedIfLossless(l, r, k);
      }
    }
    if AllRetained(l, r) {
      forall n | l.Conflicts(n)
        ensures Lossless(l, n)
      {
        assert Retained(l, r, n) && Retained(l, r, Shadow(n));
        LosslessIfRetained(l, r, n);
      }
    }
  }

  /** The merge keeps every value it was given, under its name or the shadow of a name with a conflict,
      if and only if in each conflict a third value is one of the first two, and the shadow name is free
      or holds the second. */
  lemma NothingLostIff(embedded: Fields, payload: seq<Write>, envelope: seq<Write>)
    requires Distinct(payload) && Distinct(envelope)
    requires Layers(embedded, AsFields(payload), AsFields(envelope)).NoClash()
    ensures var l := Layers(embedded, AsFields(payload), AsFields(envelope));
      AllRetained(l, WriteAll(WriteAll(embedded, payload), envelope)) <==> AllLossless(l)
  {
    MergeClosedForm(embedded, payload, envelope);
    AllRetainedIff(Layers(embedded, AsFields(payload), AsFields(envelope)),
                   WriteAll(WriteAll(embedded, payload), envelope));
  }

  lemma MergedUnique(l: Layers, r: Fields, r': Fields)
    requires l.MergedIn(r) && l.MergedIn(r')
    ensures r == r'
  {
    forall k
      ensures Lookup(r, k) == Lookup(r', k)
    {
      assert Lookup(r, k) == l.Expected(k) == Lookup(r', k);
    }
    SameLookups(r, r');
  }

  /** The order in which the payload's fields come does not matter, whatever the envelope is,
      when the payload does not write a shadow name that it also needs. */
  lemma OrderIndependent(embedded: Fields, payload: seq<Write>, other: seq<Write>, envelope: seq<Write>)
    requires Distinct(payload) && Distinct(other) && AsFields(payload) == AsFields(other)
    requires Layers(embedded, AsFields(payload), map[]).NoClash()
    ensures WriteAll(WriteAll(embedded, payload), envelope) == WriteAll(WriteAll(embedded, other), envelope)
  {
    PayloadMerges(embedded, payload);
    PayloadMerges(embedded, other);
    MergedUnique(Layers(embedded, AsFields(payload), map[]), WriteAll(embedded, payload), WriteAll(embedded, other));
  }

  /** A write of `vb` to `b` next to one to `a` that does not disturb it: if `b` is the shadow that
      `a` needs, it is given the value that moves there, and whatever the write to `b` moves further
      is that value or there already. */
  predicate Gives(fields: Fields, a: string, b: string, vb: Value) {
    b == Shadow(a) && a in fields ==>
      && vb == fields[a]
      && (if b in fields then fields[b] == fields[a]
          else Shadow(b) in fields && fields[Shadow(b)] == fields[a])
  }

  lemma ShadowLonger(n: string)
    ensures |Shadow(n)| == |n| + 2 && n != Shadow(n) && Shadow(n) != Shadow(Shadow(n)) && n != Shadow(Shadow(n))
  {
    assert |Shadow(Shadow(n))| == |n| + 4;
  }

  lemma ShadowInjective(a: string, b: string)
    requires a != b
    ensures Shadow(a) != Shadow(b)
  {
    ShadowInverse(a);
    ShadowInverse(b);
  }

  /** What is found after a name and then its shadow have been written, and the other way round. */
  lemma ShadowLast(fields: Fields, a: string, va: Value, vb: Value, k: string)
    ensures Lookup(Override(Override(fields, a, va), Shadow(a), vb), k)
         == if k == a then Some(va)
            else if k == Shadow(a) then Some(vb)
            else if k == Shadow(Shadow(a)) && a in fields then Some(fields[a])
            else if k == Shadow(Shadow(a)) && Shadow(a) in fields then Some(fields[Shadow(a)])
            else Lookup(fields, k)
  {
    ShadowLonger(a);
  }

  lemma ShadowFirst(fields: Fields, a: string, va: Value, vb: Value, k: string)
    ensures Lookup(Override(Override(fields, Shadow(a), vb), a, va), k)
         == if k == a then Some(va)
            else if k == Shadow(a) then Some(if a in fields then fields[a] else vb)
            else if k == Shadow(Shadow(a)) && Shadow(a) in fields then Some(fields[Shadow(a)])
            else Lookup(fields, k)
  {
    ShadowLonger(a);
  }

  /** When writing a name and its shadow gives the same in both orders. */
  lemma ShadowOrder(fields: Fields, a: string, va: Value, vb: Value)
    ensures Override(Override(fields, a, va), Shadow(a), vb) == Override(Override(fields, Shadow(a), vb), a, va)
       <==> Gives(fields, a, Shadow(a), vb)
  {
    hide Override, Shadow;
    var b := Shadow(a);
    var first, second := Override(Override(fields, a, va), b, vb), Override(Override(fields, b, vb), a, va);
    ShadowLonger(a);
    forall k
      ensures Lookup(first, k) == Lookup(second, k) || k in {b, Shadow(b)}
    {
      ShadowLast(fields, a, va, vb, k);
      ShadowFirst(fields, a, va, vb, k);
    }
    ShadowLast(fields, a, va, vb, b);
    ShadowFirst(fields, a, va, vb, b);
    ShadowLast(fields, a, va, vb, Shadow(b));
    ShadowFirst(fields, a, va, vb, Shadow(b));
    SameLookups(first, second);
  }

  lemma SameLookups(r: Fields, r': Fields)
    ensures r == r' <==> forall k :: Lookup(r, k) == Lookup(r', k)
  {
    if forall k :: Lookup(r, k) == Lookup(r', k) {
      assert forall k :: k in r <==> Lookup(r, k).Some?;
      assert forall k :: k in r' <==> Lookup(r', k).Some?;
      assert r.Keys == r'.Keys;
      assert forall k :: k in r ==> Lookup(r, k) == Some(r[k]);
      assert forall k :: k in r' ==> Lookup(r', k) == Some(r'[k]);
    }
  }

  lemma UnrelatedOrder(fields: Fields, a: string, va: Value, b: string, vb: Value)
    requires a != b && b != Shadow(a) && a != Shadow(b)
    ensures Override(Override(fields, a, va), b, vb) == Override(Override(fields, b, vb), a, va)
  {
    ShadowLonger(a);
    ShadowLonger(b);
    ShadowInjective(a, b);
  }

  /** Two writes can be exchanged if and only if, for one name, their values are the same and,
      for two, neither disturbs the other. */
  lemma ExchangeIff(fields: Fields, a: string, va: Value, b: string, vb: Value)
    ensures Override(Override(fields, a, va), b, vb) == Override(Override(fields, b, vb), a, va)
       <==> if a == b then va == vb else Gives(fields, a, b, vb) && Gives(fields, b, a, va)
  {
    ShadowLonger(a);
    ShadowLonger(b);
    if a == b {
      assert Override(Override(fields, a, va), b, vb)[a] == vb;
      assert Override(Override(fields, b, vb), a, va)[a] == va;
    } else if b == Shadow(a) {
      ShadowOrder(fields, a, va, vb);
    } else if a == Shadow(b) {
      ShadowOrder(fields, b, vb, va);
    } else {
      UnrelatedOrder(fields, a, va, b, vb);
    }
  }

  /** A name and its shadow written first, in either order, give different results whatever comes after. */
  lemma ClashOrderMatters(embedded: Fields, n: string, v: Value, w: Value, rest: seq<Write>)
    requires n in embedded && w != embedded[n]
    requires forall i :: 0 <= i < |rest| ==> rest[i].0 != n && rest[i].0 != Shadow(n)
    ensures WriteAll(embedded, [(n, v), (Shadow(n), w)] + rest) != WriteAll(embedded, [(Shadow(n), w), (n, v)] + rest)
  {
    var some, other := [(n, v), (Shadow(n), w)], [(Shadow(n), w), (n, v)];
    TwoWrites(embedded, some[0], some[1]);
    TwoWrites(embedded, other[0], other[1]);
    ShadowLast(embedded, n, v, w, Shadow(n));
    ShadowFirst(embedded, n, v, w, Shadow(n));
    ShadowKept(embedded, some, rest, n);
    ShadowKept(embedded, other, rest, n);
  }

  /** Only writes of a name and its shadow change what is under the shadow. */
  lemma {:induction false} ShadowKept(fields: Fields, ws: seq<Write>, rest: seq<Write>, n: string)
    requires forall i :: 0 <= i < |rest| ==> rest[i].0 != n && rest[i].0 != Shadow(n)
    ensures Lookup(WriteAll(fields, ws + rest), Shadow(n)) == Lookup(WriteAll(fields, ws), Shadow(n))
  {
    if rest == [] {
      assert ws + rest == ws;
    } else {
      var before, last := rest[..|rest| - 1], rest[|rest| - 1];
      ShadowKept(fields, ws, before, n);
      assert (ws + rest)[..|ws + rest| - 1] == ws + before;
      ShadowInjective(n, last.0);
    }
  }

  /** A name that is no shadow holds its last write, or what it held before if it is not written. */
  lemma {:induction false} PlainNameHolds(fields: Fields, ws: seq<Write>, k: string)
    requires !("__" <= k)
    ensures Lookup(WriteAll(fields, ws), k) == if k in AsFields(ws) then Some(AsFields(ws)[k]) else Lookup(fields, k)
  {
    if ws != [] {
      var before, last := ws[..|ws| - 1], ws[|ws| - 1];
      PlainNameHolds(fields, before, k);
      assert Shadow(last.0)[..2] == "__";
      assert k != Shadow(last.0);
    }
  }

  /** The last write of a name is the one that counts. */
  lemma {:induction false} LastWriteCounts(ws: seq<Write>, i: nat)
    requires i < |ws| && forall j :: i < j < |ws| ==> ws[j].0 != ws[i].0
    ensures ws[i].0 in AsFields(ws) && AsFields(ws)[ws[i].0] == ws[i].1
  {
    if i < |ws| - 1 {
      var before := ws[..|ws| - 1];
      LastWriteCounts(before, i);
      assert before[i] == ws[i];
    }
  }

  /** The writes of other names. */
  function Others(ws: seq<Write>, names: set<string>): seq<Write> {
    if ws == [] then []
    else
      var last := ws[|ws| - 1];
      Others(ws[..|ws| - 1], names) + if last.0 in names then [] else [last]
  }

  lemma {:induction false} AsFieldsOthers(ws: seq<Write>, names: set<string>)
    ensures AsFields(Others(ws, names)) == AsFields(ws) - names
  {
    if ws != [] {
      var before, last := ws[..|ws| - 1], ws[|ws| - 1];
      AsFieldsOthers(before, names);
      if last.0 in names {
        assert Others(before, names) + [] == Others(before, names);
        assert AsFields(ws) - names == AsFields(before) - names;
      } else {
        assert (Others(before, names) + [last])[..|Others(before, names)|] == Others(before, names);
        assert AsFields(ws) - names == (AsFields(before) - names)[last.0 := last.1];
      }
    }
  }

  lemma DistinctSnoc(ws: seq<Write>, w: Write)
    requires Distinct(ws) && w.0 !in AsFields(ws)
    ensures Distinct(ws + [w])
  {
    AsFieldsKeys(ws, w.0);
  }

  lemma {:induction false} OthersDistinct(ws: seq<Write>, names: set<string>)
    requires Distinct(ws)
    ensures Distinct(Others(ws, names))
  {
    if ws != [] {
      var before, last := ws[..|ws| - 1], ws[|ws| - 1];
      DistinctLast(ws);
      OthersDistinct(before, names);
      AsFieldsOthers(before, names);
      if last.0 in names {
        assert Others(before, names) + [] == Others(before, names);
      } else {
        DistinctSnoc(Others(before, names), last);
      }
    }
  }

  lemma {:induction false} AsFieldsAppend(a: seq<Write>, b: seq<Write>)
    ensures AsFields(a + b) == AsFields(a) + AsFields(b)
  {
    if b == [] {
      assert a + b == a && AsFields(a) + map[] == AsFields(a);
    } else {
      var before, last := b[..|b| - 1], b[|b| - 1];
      AsFieldsAppend(a, before);
      assert (a + b)[..|a + b| - 1] == a + before;
      assert AsFields(a) + AsFields(before)[last.0 := last.1] == (AsFields(a) + AsFields(before))[last.0 := last.1];
    }
  }

  lemma DistinctPair(a: Write, b: Write, rest: seq<Write>)
    requires Distinct(rest) && a.0 != b.0
    requires forall i :: 0 <= i < |rest| ==> rest[i].0 != a.0 && rest[i].0 != b.0
    ensures Distinct([a, b] + rest)
  {
  }

  lemma OthersAvoid(ws: seq<Write>, names: set<string>, i: nat)
    requires i < |Others(ws, names)|
    ensures Others(ws, names)[i].0 !in names
  {
    AsFieldsOthers(ws, names);
    AsFieldsKeys(Others(ws, names), Others(ws, names)[i].0);
  }

  lemma PairOver(fields: Fields, a: Write, b: Write)
    requires a.0 != b.0
    requires a.0 in fields && fields[a.0] == a.1 && b.0 in fields && fields[b.0] == b.1
    ensures map[a.0 := a.1, b.0 := b.1] + (fields - {a.0, b.0}) == fields
  {
  }

  /** Two of the writes, and then the others, are an order of them all. */
  lemma TwoFirst(ws: seq<Write>, a: Write, b: Write)
    requires Distinct(ws) && a.0 != b.0
    requires a.0 in AsFields(ws) && AsFields(ws)[a.0] == a.1 && b.0 in AsFields(ws) && AsFields(ws)[b.0] == b.1
    ensures var rest := Others(ws, {a.0, b.0});
      && Distinct([a, b] + rest) && AsFields([a, b] + rest) == AsFields(ws)
      && forall i :: 0 <= i < |rest| ==> rest[i].0 != a.0 && rest[i].0 != b.0
  {
    hide Others, AsFields, Distinct;
    var rest := Others(ws, {a.0, b.0});
    OthersDistinct(ws, {a.0, b.0});
    AsFieldsOthers(ws, {a.0, b.0});
    AsFieldsAppend([a, b], rest);
    PairFields(a, b);
    PairOver(AsFields(ws), a, b);
    forall i | 0 <= i < |rest|
      ensures rest[i].0 != a.0 && rest[i].0 != b.0
    {
      OthersAvoid(ws, {a.0, b.0}, i);
    }
    DistinctPair(a, b, rest);
  }

  lemma PairFields(a: Write, b: Write)
    requires a.0 != b.0
    ensures AsFields([a, b]) == map[a.0 := a.1, b.0 := b.1]
  {
    assert [a, b][..1] == [a] && [a][..0] == [];
    assert AsFields([a]) == AsFields([a][..0])[a.0 := a.1] == map[a.0 := a.1];
  }

  /** And when the payload writes a shadow name that it needs, with another value than the one that has
      to move there, some other order of it gives a different result. */
  lemma OrderMatters(embedded: Fields, payload: seq<Write>, n: string) returns (other: seq<Write>)
    requires Distinct(payload) && Layers(embedded, AsFields(payload), map[]).Conflicts(n)
    requires Shadow(n) in AsFields(payload) && AsFields(payload)[Shadow(n)] != embedded[n]
    ensures Distinct(other) && AsFields(other) == AsFields(payload)
    ensures WriteAll(embedded, other) != WriteAll(embedded, payload)
  {
    hide WriteAll, Distinct, Others, AsFields;
    ShadowLonger(n);
    var p := AsFields(payload);
    var a, b := (n, p[n]), (Shadow(n), p[Shadow(n)]);
    var rest := Others(payload, {a.0, b.0});
    TwoFirst(payload, a, b);
    TwoFirst(payload, b, a);
    assert {b.0, a.0} == {a.0, b.0};
    ClashOrderMatters(embedded, n, a.1, b.1, rest);
    other := if WriteAll(embedded, [a, b] + rest) != WriteAll(embedded, payload) then [a, b] + rest else [b, a] + rest;
  }

  lemma TwoWrites(fields: Fields, a: Write, b: Write)
    ensures WriteAll(fields, [a, b]) == Override(Override(fields, a.0, a.1), b.0, b.1)
  {
    assert [a, b][..1] == [a] && [a][..0] == [];
    assert WriteAll(fields, [a][..0]) == fields;
    assert WriteAll(fields, [a, b][..1]) == Override(fields, a.0, a.1);
  }

  /** With a clash the order does matter: a payload that writes `n` and its shadow over an embedded
      `n` loses the shadow's own value in one order, and keeps it in the other. */
  lemma ClashDependsOnOrder(n: string, v: Value, w: Value, prior: Value)
    requires w != prior
    ensures var embedded: Fields := map[n := prior];
      && WriteAll(embedded, [(n, v), (Shadow(n), w)])
         == map[n := v, Shadow(n) := w, Shadow(Shadow(n)) := prior]
      && WriteAll(embedded, [(Shadow(n), w), (n, v)]) == map[n := v, Shadow(n) := prior]
  {
    hide Shadow;
    var embedded: Fields := map[n := prior];
    ShadowLonger(n);
    TwoWrites(embedded, (n, v), (Shadow(n), w));
    TwoWrites(embedded, (Shadow(n), w), (n, v));
  }

  /** Two payload names that strip to one name: the later value wins, the earlier takes
      the shadow, and an embedded value is lost. */
  lemma RepeatedName(fields: Fields, n: string, v: Value, w: Value)
    ensures WriteAll(fields, [(n, v), (n, w)]) == fields[n := w][Shadow(n) := v]
  {
    ShadowInverse(n);
    TwoWrites(fields, (n, v), (n, w));
  }
}
