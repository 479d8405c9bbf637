/** Why the parameters of a call must not share a byte of a host variable. */
module CallContextSharing {
  import opened CallContext
  import opened Types

  /** A callee that does the actions of a plan, whatever it reads. */
  function Follower(plan: seq<Action>): Callee {
    (n: nat, seen: seq<byte>) => if n < |plan| then plan[n] else Return
  }

  /** Writes the first k bytes of parameter p with its variable's own values. */
  function RewriteParam(ps: seq<Param>, vars: seq<Bytes>, p: nat, k: nat): (plan: seq<Action>)
    requires Named(ps, vars) && p < |ps| && k <= |vars[ps[p].v]|
    ensures |plan| == k
  {
    seq(k, i requires 0 <= i < k => Write(p, i, vars[ps[p].v][i]))
  }

  /** The same for every byte of the first n parameters. */
  function Rewrite(ps: seq<Param>, vars: seq<Bytes>, n: nat): seq<Action>
    requires Named(ps, vars) && n <= |ps|
  {
    if n == 0 then [] else Rewrite(ps, vars, n - 1) + RewriteParam(ps, vars, n - 1, |vars[ps[n - 1].v]|)
  }

  /** The action writes a byte with the value it has. */
  predicate Harmless(ps: seq<Param>, vars: seq<Bytes>, a: Action)
    requires Named(ps, vars)
  {
    a.Write? && a.p < |ps| && Holds(vars, ps[a.p].v, a.k) && a.b == vars[ps[a.p].v][a.k]
  }

  predicate AllHarmless(ps: seq<Param>, vars: seq<Bytes>, plan: seq<Action>)
    requires Named(ps, vars)
  {
    forall i | 0 <= i < |plan| :: Harmless(ps, vars, plan[i])
  }

  lemma {:induction false} RewriteHarmless(ps: seq<Param>, vars: seq<Bytes>, n: nat)
    requires Named(ps, vars) && n <= |ps|
    ensures AllHarmless(ps, vars, Rewrite(ps, vars, n))
  {
    if n > 0 {
      RewriteHarmless(ps, vars, n - 1);
    }
  }

  lemma {:induction false} RewriteReaches(ps: seq<Param>, vars: seq<Bytes>, n: nat, p: nat, k: nat) returns (i: nat)
    requires Named(ps, vars) && p < n <= |ps| && k < |vars[ps[p].v]|
    ensures i < |Rewrite(ps, vars, n)| && Rewrite(ps, vars, n)[i] == Write(p, k, vars[ps[p].v][k])
    decreases n
  {
    if p == n - 1 {
      i := |Rewrite(ps, vars, n - 1)| + k;
    } else {
      i := RewriteReaches(ps, vars, n - 1, p, k);
    }
  }

  // ---------------------------------------------------------------------
  // The witness: rewrite everything, then change a byte through p, look at it
  // through q, and change it back

  function Probe(ps: seq<Param>, vars: seq<Bytes>, p: nat, q: nat): seq<Action>
    requires Named(ps, vars) && p < |ps| && vars[ps[p].v] != []
  {
    var c := vars[ps[p].v][0];
    Rewrite(ps, vars, |ps|) + [Write(p, 0, Flipped(c)), Read(q, 0), Write(p, 0, c)]
  }

  lemma ProbeShape(ps: seq<Param>, vars: seq<Bytes>, p: nat, q: nat)
    requires Named(ps, vars) && p < |ps| && vars[ps[p].v] != []
    ensures var plan, w, c := Probe(ps, vars, p, q), |Rewrite(ps, vars, |ps|)|, vars[ps[p].v][0];
      |plan| == w + 3 && plan[..w] == Rewrite(ps, vars, |ps|) && AllHarmless(ps, vars, plan[..w]) &&
      plan[w] == Write(p, 0, Flipped(c)) && plan[w + 1] == Read(q, 0) && plan[w + 2] == Write(p, 0, c)
  {
    assert Probe(ps, vars, p, q)[..|Rewrite(ps, vars, |ps|)|] == Rewrite(ps, vars, |ps|);
    RewriteHarmless(ps, vars, |ps|);
  }

  lemma PokeSame(mem: seq<Bytes>, i: nat, k: nat)
    requires Holds(mem, i, k)
    ensures Poke(mem, i, k, mem[i][k]) == mem
  {
    assert mem[i][k := mem[i][k]] == mem[i];
  }

  lemma PokeBack(mem: seq<Bytes>, i: nat, k: nat, b: byte)
    requires Holds(mem, i, k)
    ensures Poke(Poke(mem, i, k, b), i, k, mem[i][k]) == mem
  {
    assert mem[i][k := b][k := mem[i][k]] == mem[i];
  }

  // One step of either run

  lemma RefWrites(ps: seq<Param>, callee: Callee, n: nat, vars: seq<Bytes>, p: nat, k: nat, b: byte)
    requires Named(ps, vars) && callee(n, RefRun(ps, callee, n, vars).seen) == Write(p, k, b)
    requires p < |ps| && Holds(vars, ps[p].v, k)
    ensures var r := RefRun(ps, callee, n, vars);
      RefRun(ps, callee, n + 1, vars) == Run(Poke(r.mem, ps[p].v, k, b), r.seen)
  {
  }

  lemma RefReads(ps: seq<Param>, callee: Callee, n: nat, vars: seq<Bytes>, p: nat, k: nat)
    requires Named(ps, vars) && callee(n, RefRun(ps, callee, n, vars).seen) == Read(p, k)
    requires p < |ps| && Holds(vars, ps[p].v, k)
    ensures var r := RefRun(ps, callee, n, vars);
      RefRun(ps, callee, n + 1, vars) == Run(r.mem, r.seen + [r.mem[ps[p].v][k]])
  {
  }

  lemma CopyWrites(ps: seq<Param>, callee: Callee, n: nat, cells: seq<Bytes>, p: nat, k: nat, b: byte)
    requires |cells| == |ps| && callee(n, CopyRun(ps, callee, n, cells).seen) == Write(p, k, b) && Holds(cells, p, k)
    ensures var r := CopyRun(ps, callee, n, cells);
      CopyRun(ps, callee, n + 1, cells) == Run(Poke(r.mem, p, k, b), r.seen)
  {
  }

  lemma CopyReads(ps: seq<Param>, callee: Callee, n: nat, cells: seq<Bytes>, p: nat, k: nat)
    requires |cells| == |ps| && callee(n, CopyRun(ps, callee, n, cells).seen) == Read(p, k) && Holds(cells, p, k)
    ensures var r := CopyRun(ps, callee, n, cells);
      CopyRun(ps, callee, n + 1, cells) == Run(r.mem, r.seen + [r.mem[p][k]])
  {
  }

  /** While only harmless writes happen, the variables stay, cells written take
      their variables' values, and nothing is read. */
  lemma {:induction false} HarmlessRun(ps: seq<Param>, vars: seq<Bytes>, plan: seq<Action>, n: nat)
    requires Named(ps, vars) && n <= |plan| && AllHarmless(ps, vars, plan[..n])
    ensures RefRun(ps, Follower(plan), n, vars) == Run(vars, [])
  {
    if n > 0 {
      assert plan[..n - 1] == plan[..n][..n - 1];
      assert Harmless(ps, vars, plan[..n][n - 1]);
      HarmlessRun(ps, vars, plan, n - 1);
      PokeSame(vars, ps[plan[n - 1].p].v, plan[n - 1].k);
    }
  }

  lemma {:induction false} HarmlessCopyRun(ps: seq<Param>, vars: seq<Bytes>, plan: seq<Action>, n: nat, cells: seq<Bytes>, i: nat)
    requires Named(ps, vars) && CellsFit(ps, vars, cells) && i < n <= |plan| && AllHarmless(ps, vars, plan[..n])
    ensures var r := CopyRun(ps, Follower(plan), n, cells);
      r.seen == [] && Holds(r.mem, plan[i].p, plan[i].k) && r.mem[plan[i].p][plan[i].k] == vars[ps[plan[i].p].v][plan[i].k]
  {
    assert plan[..n - 1] == plan[..n][..n - 1];
    assert Harmless(ps, vars, plan[..n][n - 1]) && Harmless(ps, vars, plan[..n][i]);
    HarmlessSeen(ps, vars, plan, n - 1, cells);
    if i < n - 1 {
      HarmlessCopyRun(ps, vars, plan, n - 1, cells, i);
    }
  }

  lemma {:induction false} HarmlessSeen(ps: seq<Param>, vars: seq<Bytes>, plan: seq<Action>, n: nat, cells: seq<Bytes>)
    requires Named(ps, vars) && CellsFit(ps, vars, cells) && n <= |plan| && AllHarmless(ps, vars, plan[..n])
    ensures CopyRun(ps, Follower(plan), n, cells).seen == []
  {
    if n > 0 {
      assert plan[..n - 1] == plan[..n][..n - 1];
      assert Harmless(ps, vars, plan[..n][n - 1]);
      HarmlessSeen(ps, vars, plan, n - 1, cells);
    }
  }

  lemma {:induction false} WrittenAt(ps: seq<Param>, vars: seq<Bytes>, plan: seq<Action>, n: nat, i: nat)
    requires Named(ps, vars) && i < n <= |plan| && plan[i].Write?
    ensures Written(ps, Follower(plan), n, vars, plan[i].p, plan[i].k)
  {
    if i < n - 1 {
      WrittenAt(ps, vars, plan, n - 1, i);
    }
  }

  /** A run by reference that is back where it started, having read the byte c
      and nothing else. */
  predicate SawOnly(ps: seq<Param>, callee: Callee, n: nat, vars: seq<Bytes>, c: byte)
    requires Named(ps, vars)
  {
    RefRun(ps, callee, n, vars) == Run(vars, [c])
  }

  /** By reference the probe sees its own write and leaves everything as it was. */
  lemma ProbeByReference(ps: seq<Param>, vars: seq<Bytes>, p: nat, q: nat)
    requires Named(ps, vars) && p < |ps| && q < |ps| && ps[p].v == ps[q].v && vars[ps[p].v] != []
    ensures SawOnly(ps, Follower(Probe(ps, vars, p, q)), |Rewrite(ps, vars, |ps|)| + 3, vars, Flipped(vars[ps[p].v][0]))
  {
    var plan, w := Probe(ps, vars, p, q), |Rewrite(ps, vars, |ps|)|;
    ProbeShape(ps, vars, p, q);
    HarmlessRun(ps, vars, plan, w);
    ProbeEndByReference(ps, Follower(plan), w, vars, p, q);
  }

  lemma ProbeEndByReference(ps: seq<Param>, callee: Callee, w: nat, vars: seq<Bytes>, p: nat, q: nat)
    requires Named(ps, vars) && p < |ps| && q < |ps| && ps[p].v == ps[q].v && vars[ps[p].v] != []
    requires RefRun(ps, callee, w, vars) == Run(vars, [])
    requires var c := vars[ps[p].v][0];
      callee(w, []) == Write(p, 0, Flipped(c)) && callee(w + 1, []) == Read(q, 0) && callee(w + 2, [Flipped(c)]) == Write(p, 0, c)
    ensures SawOnly(ps, callee, w + 3, vars, Flipped(vars[ps[p].v][0]))
  {
    var v, c := ps[p].v, vars[ps[p].v][0];
    var changed := Poke(vars, v, 0, Flipped(c));
    RefWrites(ps, callee, w, vars, p, 0, Flipped(c));
    assert RefRun(ps, callee, w + 1, vars) == Run(changed, []);
    RefReads(ps, callee, w + 1, vars, q, 0);
    assert RefRun(ps, callee, w + 2, vars) == Run(changed, [Flipped(c)]);
    RefWrites(ps, callee, w + 2, vars, p, 0, c);
    PokeBack(vars, v, 0, Flipped(c));
  }

  /** By copy it sees the other cell. */
  lemma ProbeByCopy(ps: seq<Param>, vars: seq<Bytes>, p: nat, q: nat, cells: seq<Bytes>)
    requires Named(ps, vars) && CellsFit(ps, vars, cells)
    requires p < |ps| && q < |ps| && p != q && ps[p].v == ps[q].v && vars[ps[p].v] != []
    ensures var plan := Probe(ps, vars, p, q);
      CopyRun(ps, Follower(plan), |Rewrite(ps, vars, |ps|)| + 3, cells).seen == [vars[ps[p].v][0]]
  {
    var plan, w := Probe(ps, vars, p, q), |Rewrite(ps, vars, |ps|)|;
    ProbeShape(ps, vars, p, q);
    var i := RewriteReaches(ps, vars, |ps|, q, 0);
    assert plan[i] == plan[..w][i];
    HarmlessCopyRun(ps, vars, plan, w, cells, i);
    ProbeEndByCopy(ps, Follower(plan), w, cells, p, q, vars[ps[p].v][0]);
  }

  lemma ProbeEndByCopy(ps: seq<Param>, callee: Callee, w: nat, cells: seq<Bytes>, p: nat, q: nat, c: byte)
    requires |cells| == |ps| && p != q && Holds(cells, p, 0) && Holds(cells, q, 0)
    requires var r := CopyRun(ps, callee, w, cells); r.seen == [] && r.mem[q][0] == c
    requires callee(w, []) == Write(p, 0, Flipped(c)) && callee(w + 1, []) == Read(q, 0) && callee(w + 2, [c]) == Write(p, 0, c)
    ensures CopyRun(ps, callee, w + 3, cells).seen == [c]
  {
    CopyWrites(ps, callee, w, cells, p, 0, Flipped(c));
    CopyReads(ps, callee, w + 1, cells, q, 0);
    assert CopyRun(ps, callee, w + 2, cells).seen == [c];
    CopyWrites(ps, callee, w + 2, cells, p, 0, c);
  }

  lemma ProbeDisciplined(ps: seq<Param>, vars: seq<Bytes>, p: nat, q: nat)
    requires Named(ps, vars) && p < |ps| && q < |ps| && ps[p].v == ps[q].v && vars[ps[p].v] != []
    ensures var plan := Probe(ps, vars, p, q); Disciplined(ps, Follower(plan), |plan|, vars)
  {
    var plan, w := Probe(ps, vars, p, q), |Rewrite(ps, vars, |ps|)|;
    var callee := Follower(plan);
    ProbeShape(ps, vars, p, q);
    ProbeByReference(ps, vars, p, q);
    forall i | 0 <= i < |plan| ensures ReadsKnown(ps, callee, i, vars) {
      if i < w {
        assert Harmless(ps, vars, plan[..w][i]);
      } else if i == w + 1 {
        var j := RewriteReaches(ps, vars, |ps|, q, 0);
        assert plan[j] == plan[..w][j];
        WrittenAt(ps, vars, plan, i, j);
      }
    }
    forall r, k | OutByte(ps, vars, r, k) ensures Written(ps, callee, |plan|, vars, r, k) {
      var j := RewriteReaches(ps, vars, |ps|, r, k);
      assert plan[j] == plan[..w][j];
      WrittenAt(ps, vars, plan, |plan|, j);
    }
  }

  ghost predicate AllDisciplinedAgree(ps: seq<Param>, vars: seq<Bytes>)
    requires Named(ps, vars)
  {
    forall callee: Callee, n, garbage | CellsFit(ps, vars, garbage) && Disciplined(ps, callee, n, vars) ::
      Agree(ps, callee, n, vars, garbage)
  }

  lemma SharingShows(ps: seq<Param>, vars: seq<Bytes>, p: nat, q: nat)
    requires Named(ps, vars) && p < q < |ps| && ps[p].v == ps[q].v && vars[ps[p].v] != []
    ensures !AllDisciplinedAgree(ps, vars)
  {
    var plan := Probe(ps, vars, p, q);
    var garbage := seq(|ps|, r requires 0 <= r < |ps| => vars[ps[r].v]);
    ProbeDisciplined(ps, vars, p, q);
    ProbeByReference(ps, vars, p, q);
    ProbeByCopy(ps, vars, p, q, Staged(ps, vars, garbage));
    assert !Agree(ps, Follower(plan), |plan|, vars, garbage);
  }

  /** Every disciplined callee agrees by copy and by reference, whatever the arena
      held, exactly when no two parameters share a byte. */
  lemma SharingExact(ps: seq<Param>, vars: seq<Bytes>)
    requires Named(ps, vars)
    ensures AllDisciplinedAgree(ps, vars) <==> Separate(ps, vars)
  {
    if Separate(ps, vars) {
      forall callee: Callee, n, garbage | CellsFit(ps, vars, garbage) && Disciplined(ps, callee, n, vars)
        ensures Agree(ps, callee, n, vars, garbage)
      {
        DisciplineSuffices(ps, callee, n, vars, garbage);
      }
    } else {
      var p, q :| 0 <= p < q < |ps| && ps[p].v == ps[q].v && vars[ps[p].v] != [];
      SharingShows(ps, vars, p, q);
    }
  }
}
