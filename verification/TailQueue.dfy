/** The TAILQ family of src/cs_queue.h. A back link is the address of the
    pointer that points at its element: the `tqh_first` of a head or the
    `tqe_next` of the previous entry. */
module TailQueue {
  import opened Basics

  type HeadId = nat

  /** The address of a pointer to an entry. */
  datatype Slot = First(head: HeadId) | NextOf(elm: Addr)

  datatype Entry = Entry(next: Addr, prev: Slot)

  datatype Head = Head(first: Addr, last: Slot)

  type Entries = map<Addr, Entry>
  type Heads = map<HeadId, Head>

  predicate Live(es: Entries, hs: Heads, p: Slot) {
    match p
    case First(h) => h in hs
    case NextOf(a) => a in es
  }

  /** `*p` */
  function Load(es: Entries, hs: Heads, p: Slot): Addr
    requires Live(es, hs, p)
  {
    match p
    case First(h) => hs[h].first
    case NextOf(a) => es[a].next
  }

  /** The word after `*p`, which is what `((struct headname *)p)->tqh_last`
      reads: a head and an entry both keep a slot address there. */
  function SecondWord(es: Entries, hs: Heads, p: Slot): Slot
    requires Live(es, hs, p)
  {
    match p
    case First(h) => hs[h].last
    case NextOf(a) => es[a].prev
  }

  // ------------------------------------------------------------- link invariant

  function FirstOf(s: seq<Addr>): Addr {
    if s == [] then NULL else s[0]
  }

  function LastSlot(h: HeadId, s: seq<Addr>): Slot {
    if s == [] then First(h) else NextOf(s[|s| - 1])
  }

  /** The entry of `s[i]` in a well formed queue. */
  function EntryAt(h: HeadId, s: seq<Addr>, i: nat): Entry
    requires i < |s|
  {
    Entry(if i + 1 < |s| then s[i + 1] else NULL, if i == 0 then First(h) else NextOf(s[i - 1]))
  }

  /** Memory holds at `h` the queue `s`: every link and every back link. */
  predicate IsQueue(es: Entries, hs: Heads, h: HeadId, s: seq<Addr>) {
    && h in hs && hs[h] == Head(FirstOf(s), LastSlot(h, s))
    && NoRepeats(s)
    && forall i :: 0 <= i < |s| ==> s[i] in es && es[s[i]] == EntryAt(h, s, i)
  }

  /** All heads hold queues, and no entry is in two of them. */
  predicate AllQueues(es: Entries, hs: Heads, c: map<HeadId, seq<Addr>>) {
    && NULL !in es
    && c.Keys == hs.Keys
    && (forall h :: h in c ==> IsQueue(es, hs, h, c[h]))
    && Disjoint(c)
  }

  predicate NoCommon(s: seq<Addr>, t: seq<Addr>) {
    forall a :: a in s ==> a !in t
  }

  predicate Disjoint(c: map<HeadId, seq<Addr>>) {
    forall h, k :: h in c && k in c && h != k ==> NoCommon(c[h], c[k])
  }

  predicate Unqueued(c: map<HeadId, seq<Addr>>, a: Addr) {
    forall h :: h in c ==> a !in c[h]
  }

  /** Rewriting queue `h` alone keeps the others. */
  lemma OtherQueues(es: Entries, hs: Heads, es': Entries, hs': Heads, c: map<HeadId, seq<Addr>>, h: HeadId,
                    s: seq<Addr>)
    requires AllQueues(es, hs, c) && h in c
    requires IsQueue(es', hs', h, s) && hs' == hs[h := hs'[h]] && es'.Keys == es.Keys
    requires forall a :: a in es && es'[a] != es[a] ==> a in c[h] || a in s
    requires forall a :: a in s ==> a in c[h] || Unqueued(c, a)
    ensures AllQueues(es', hs', c[h := s])
  {
    var c' := c[h := s];
    forall k | k in c'
      ensures IsQueue(es', hs', k, c'[k])
    {
      if k != h {
        forall i | 0 <= i < |c[k]|
          ensures c[k][i] in es' && es'[c[k][i]] == EntryAt(k, c[k], i)
        {
          assert c[k][i] in c[k];
        }
      }
    }
  }

  // -------------------------------------------------- one operation on one queue

  function InsertAt(s: seq<Addr>, i: nat, a: Addr): seq<Addr>
    requires i <= |s|
  {
    s[..i] + [a] + s[i..]
  }

  function RemoveAt(s: seq<Addr>, i: nat): seq<Addr>
    requires i < |s|
  {
    s[..i] + s[i + 1..]
  }

  /** Inserting `a` between `s[i - 1]` (or the head) and `s[i]` (or the end)
      writes the new entry and the two links around it. */
  predicate InsertsEntry(es: Entries, es': Entries, h: HeadId, s: seq<Addr>, i: nat, a: Addr)
    requires i <= |s| && a in es && forall j :: 0 <= j < |s| ==> s[j] in es
  {
    && es'.Keys == es.Keys
    && es'[a] == Entry(if i < |s| then s[i] else NULL, if i == 0 then First(h) else NextOf(s[i - 1]))
    && (forall j :: 0 <= j < |s| ==>
          es'[s[j]] ==
          if j + 1 == i then es[s[j]].(next := a) else if j == i then es[s[j]].(prev := NextOf(a)) else es[s[j]])
    && (forall b :: b in es && b != a && b !in s ==> es'[b] == es[b])
  }

  /** The entries after those writes. */
  function InsertEntry(es: Entries, h: HeadId, s: seq<Addr>, i: nat, a: Addr): Entries
    requires i <= |s| && a in es && (i < |s| ==> s[i] in es) && (0 < i ==> s[i - 1] in es)
  {
    var e1 := es[a := Entry(if i < |s| then s[i] else NULL, if i == 0 then First(h) else NextOf(s[i - 1]))];
    var e2 := if i < |s| then e1[s[i] := e1[s[i]].(prev := NextOf(a))] else e1;
    if i == 0 then e2 else e2[s[i - 1] := e2[s[i - 1]].(next := a)]
  }

  function InsertHeads(hs: Heads, h: HeadId, s: seq<Addr>, i: nat, a: Addr): Heads
    requires h in hs
  {
    hs[h := Head(if i == 0 then a else hs[h].first, if i == |s| then NextOf(a) else hs[h].last)]
  }

  lemma InsertEntryCells(es: Entries, h: HeadId, s: seq<Addr>, i: nat, a: Addr)
    requires i <= |s| && a in es && a !in s && NoRepeats(s) && forall j :: 0 <= j < |s| ==> s[j] in es
    ensures InsertsEntry(es, InsertEntry(es, h, s, i, a), h, s, i, a)
  {
  }

  lemma InsertionHolds(es: Entries, hs: Heads, es': Entries, hs': Heads, h: HeadId, s: seq<Addr>, i: nat, a: Addr)
    requires IsQueue(es, hs, h, s) && i <= |s| && a in es && a !in s
    requires InsertsEntry(es, es', h, s, i, a)
    requires hs' == InsertHeads(hs, h, s, i, a)
    ensures IsQueue(es', hs', h, InsertAt(s, i, a))
  {
    var s' := InsertAt(s, i, a);
    InsertAtCells(s, i, a);
    hide InsertAt;
    forall k | 0 <= k < |s'|
      ensures s'[k] in es' && es'[s'[k]] == EntryAt(h, s', k)
    {
      if k < i {
        assert s'[k] == s[k] && es[s[k]] == EntryAt(h, s, k);
      } else if k > i {
        assert s'[k] == s[k - 1] && es[s[k - 1]] == EntryAt(h, s, k - 1);
      }
    }
  }

  lemma InsertAtEnds(s: seq<Addr>, a: Addr)
    ensures InsertAt(s, 0, a) == [a] + s && InsertAt(s, |s|, a) == s + [a]
  {
  }

  lemma InsertAtCells(s: seq<Addr>, i: nat, a: Addr)
    requires i <= |s|
    ensures var s' := InsertAt(s, i, a);
            && |s'| == |s| + 1 && s'[i] == a
            && (forall k :: 0 <= k < i ==> s'[k] == s[k])
            && (forall k :: i < k < |s'| ==> s'[k] == s[k - 1])
            && (NoRepeats(s) && a !in s ==> NoRepeats(s'))
  {
  }

  /** Removing `s[i]` writes the two links around it. */
  predicate RemovesEntry(es: Entries, es': Entries, s: seq<Addr>, i: nat)
    requires i < |s| && forall j :: 0 <= j < |s| ==> s[j] in es
  {
    && es'.Keys == es.Keys
    && (forall j :: 0 <= j < |s| && j != i ==>
          es'[s[j]] ==
          if j + 1 == i then es[s[j]].(next := es[s[i]].next)
          else if j == i + 1 then es[s[j]].(prev := es[s[i]].prev)
          else es[s[j]])
    && (forall b :: b in es && b !in s ==> es'[b] == es[b])
  }

  function RemoveEntry(es: Entries, s: seq<Addr>, i: nat): Entries
    requires i < |s| && s[i] in es && (i + 1 < |s| ==> s[i + 1] in es) && (0 < i ==> s[i - 1] in es)
  {
    var e1 := if i + 1 < |s| then es[s[i + 1] := es[s[i + 1]].(prev := es[s[i]].prev)] else es;
    if i == 0 then e1 else e1[s[i - 1] := e1[s[i - 1]].(next := es[s[i]].next)]
  }

  function RemoveHeads(es: Entries, hs: Heads, h: HeadId, s: seq<Addr>, i: nat): Heads
    requires h in hs && i < |s| && s[i] in es
  {
    hs[h := Head(if i == 0 then es[s[i]].next else hs[h].first, if i + 1 == |s| then es[s[i]].prev else hs[h].last)]
  }

  lemma RemoveEntryCells(es: Entries, s: seq<Addr>, i: nat)
    requires i < |s| && NoRepeats(s) && forall j :: 0 <= j < |s| ==> s[j] in es
    ensures RemovesEntry(es, RemoveEntry(es, s, i), s, i)
    ensures RemoveEntry(es, s, i)[s[i]] == es[s[i]]
  {
  }

  lemma RemovalHolds(es: Entries, hs: Heads, es': Entries, hs': Heads, h: HeadId, s: seq<Addr>, i: nat)
    requires IsQueue(es, hs, h, s) && i < |s|
    requires RemovesEntry(es, es', s, i)
    requires hs' == RemoveHeads(es, hs, h, s, i)
    ensures IsQueue(es', hs', h, RemoveAt(s, i))
  {
    var s' := RemoveAt(s, i);
    RemoveAtCells(s, i);
    assert es[s[i]] == EntryAt(h, s, i);
    forall k | 0 <= k < |s'|
      ensures s'[k] in es' && es'[s'[k]] == EntryAt(h, s', k)
    {
      if k < i {
        assert s'[k] == s[k] && es[s[k]] == EntryAt(h, s, k);
      } else {
        assert s'[k] == s[k + 1] && es[s[k + 1]] == EntryAt(h, s, k + 1);
      }
    }
  }

  lemma RemoveAtCells(s: seq<Addr>, i: nat)
    requires i < |s|
    ensures var s' := RemoveAt(s, i);
            && |s'| == |s| - 1
            && (forall k :: 0 <= k < i ==> s'[k] == s[k])
            && (forall k :: i <= k < |s'| ==> s'[k] == s[k + 1])
            && (NoRepeats(s) ==> NoRepeats(s') && s[i] !in s')
  {
  }

  // ------------------------------------------------ two queues rewritten at once

  /** Two queues may redistribute their elements. */
  lemma DisjointTwo(c: map<HeadId, seq<Addr>>, h: HeadId, s: seq<Addr>, k: HeadId, t: seq<Addr>)
    requires Disjoint(c) && h in c && k in c && h != k && NoCommon(s, t)
    requires forall a :: a in s || a in t ==> a in c[h] || a in c[k]
    ensures Disjoint(c[h := s][k := t])
  {
    var c' := c[h := s][k := t];
    forall f, g | f in c' && g in c' && f != g
      ensures NoCommon(c'[f], c'[g])
    {
      if f != h && f != k {
        assert NoCommon(c[f], c[h]) && NoCommon(c[f], c[k]);
        assert g != h && g != k ==> NoCommon(c[f], c[g]);
      } else if g != h && g != k {
        assert NoCommon(c[g], c[h]) && NoCommon(c[g], c[k]);
      }
    }
  }

  /** Rewriting two queues with each other's elements keeps the others. */
  lemma OtherQueuesTwo(es: Entries, hs: Heads, es': Entries, hs': Heads, c: map<HeadId, seq<Addr>>, c': map<HeadId,
                       seq<Addr>>,
                       h: HeadId, k: HeadId)
    requires AllQueues(es, hs, c) && h in c && k in c
    requires c'.Keys == c.Keys && hs'.Keys == hs.Keys && es'.Keys == es.Keys
    requires forall g :: g in c && g != h && g != k ==> c'[g] == c[g] && hs'[g] == hs[g]
    requires IsQueue(es', hs', h, c'[h]) && IsQueue(es', hs', k, c'[k]) && Disjoint(c')
    requires forall a :: a in es && a !in c[h] && a !in c[k] ==> es'[a] == es[a]
    ensures AllQueues(es', hs', c')
  {
    forall g | g in c' && g != h && g != k
      ensures IsQueue(es', hs', g, c'[g])
    {
      KeptQueue(es, hs, es', hs', g, c[g]);
    }
  }

  lemma KeptQueue(es: Entries, hs: Heads, es': Entries, hs': Heads, g: HeadId, s: seq<Addr>)
    requires IsQueue(es, hs, g, s) && g in hs' && hs'[g] == hs[g]
    requires forall a :: a in s && a in es ==> a in es' && es'[a] == es[a]
    ensures IsQueue(es', hs', g, s)
  {
    forall i | 0 <= i < |s|
      ensures s[i] in es' && es'[s[i]] == EntryAt(g, s, i)
    {
      assert s[i] in s;
    }
  }

  /** Appending `t` to `s` writes the last link of `s` and the first back link
      of `t`. */
  lemma Concatenated(es: Entries, hs: Heads, es': Entries, hs': Heads, h: HeadId, s: seq<Addr>, k: HeadId, t: seq<Addr>)
    requires IsQueue(es, hs, h, s) && IsQueue(es, hs, k, t) && h != k && t != []
    requires NoCommon(s, t)
    requires es'.Keys == es.Keys
    requires forall j :: 0 <= j < |s| ==> es'[s[j]] == if j + 1 == |s| then es[s[j]].(next := t[0]) else es[s[j]]
    requires forall j :: 0 <= j < |t| ==> es'[t[j]] == if j == 0 then es[t[j]].(prev := LastSlot(h, s)) else es[t[j]]
    requires h in hs' && hs'[h] == Head(if s == [] then t[0] else hs[h].first, hs[k].last)
    ensures IsQueue(es', hs', h, s + t)
  {
    var u := s + t;
    ConcatNoRepeats(s, t);
    hide NoRepeats, EntryAt;
    forall j | 0 <= j < |u|
      ensures u[j] in es' && es'[u[j]] == EntryAt(h, u, j)
    {
      ConcatEntry(h, s, k, t, j);
      if j < |s| {
        assert es[s[j]] == EntryAt(h, s, j);
      } else {
        assert es[t[j - |s|]] == EntryAt(k, t, j - |s|);
      }
    }
  }

  lemma ConcatEntry(h: HeadId, s: seq<Addr>, k: HeadId, t: seq<Addr>, j: nat)
    requires t != [] && j < |s| + |t|
    ensures j < |s| ==> (s + t)[j] == s[j]
    ensures j < |s| ==>
              EntryAt(h, s + t, j) == if j + 1 == |s| then EntryAt(h, s, j).(next := t[0]) else EntryAt(h, s, j)
    ensures j >= |s| ==> (s + t)[j] == t[j - |s|]
    ensures j >= |s| ==> EntryAt(h, s + t, j) ==
                         if j == |s| then EntryAt(k, t, 0).(prev := LastSlot(h, s)) else EntryAt(k, t, j - |s|)
  {
  }

  lemma EmptyQueue(es: Entries, hs: Heads, h: HeadId)
    requires h in hs && hs[h] == Head(NULL, First(h))
    ensures IsQueue(es, hs, h, [])
    ensures forall s :: NoCommon(s, [])
  {
  }

  lemma NoCommonSym(s: seq<Addr>, t: seq<Addr>)
    requires NoCommon(s, t)
    ensures NoCommon(t, s)
  {
  }

  lemma ConcatNoRepeats(s: seq<Addr>, t: seq<Addr>)
    requires NoRepeats(s) && NoRepeats(t) && NoCommon(s, t)
    ensures NoRepeats(s + t)
  {
    forall i, j | 0 <= i < j < |s + t|
      ensures (s + t)[i] != (s + t)[j]
    {
      if i < |s| <= j {
        assert s[i] in s && t[j - |s|] in t;
      }
    }
  }

  /** Moving a queue from head `k` to head `h` writes its first back link. */
  lemma Moved(es: Entries, hs: Heads, es': Entries, hs': Heads, h: HeadId, k: HeadId, t: seq<Addr>)
    requires IsQueue(es, hs, k, t)
    requires forall j :: 0 <= j < |t| ==>
               t[j] in es' && es'[t[j]] == if j == 0 then es[t[j]].(prev := First(h)) else es[t[j]]
    requires h in hs' && hs'[h] == Head(hs[k].first, if t == [] then First(h) else hs[k].last)
    ensures IsQueue(es', hs', h, t)
  {
    forall j | 0 <= j < |t|
      ensures t[j] in es' && es'[t[j]] == EntryAt(h, t, j)
    {
      assert es[t[j]] == EntryAt(k, t, j);
    }
  }

  function Reverse(s: seq<Addr>): seq<Addr> {
    if s == [] then [] else Reverse(s[1..]) + [s[0]]
  }

  lemma RemoveFirst(s: seq<Addr>)
    ensures s != [] ==> RemoveAt(s, 0) == s[1..]
  {
  }

  lemma ReverseNone(s: seq<Addr>)
    ensures Reverse(s[|s|..]) == []
  {
  }

  lemma ReverseOneMore(s: seq<Addr>, n: nat)
    requires 0 < n <= |s|
    ensures Reverse(s[n - 1..]) == Reverse(s[n..]) + [s[n - 1]]
  {
    assert s[n - 1..][1..] == s[n..];
  }

  /** Reversal, element by element. */
  lemma {:induction false} ReverseAt(s: seq<Addr>, k: nat)
    requires k < |s|
    ensures |Reverse(s)| == |s| && Reverse(s)[k] == s[|s| - 1 - k]
  {
    if |s| > 1 {
      ReverseAt(s[1..], if k < |s| - 1 then k else 0);
    }
  }

  /** The slots an overlay read goes through. */
  lemma AroundPrev(es: Entries, hs: Heads, c: map<HeadId, seq<Addr>>, h: HeadId, i: nat)
    requires AllQueues(es, hs, c) && h in c && i <= |c[h]|
    ensures 1 < i ==> c[h][i - 2] in es && es[c[h][i - 2]].next == c[h][i - 1]
  {
  }

  function ConcatEntries(es: Entries, h: HeadId, s: seq<Addr>, t: seq<Addr>): Entries
    requires t != [] && t[0] in es && (s != [] ==> s[|s| - 1] in es)
  {
    var e1 := if s == [] then es else es[s[|s| - 1] := es[s[|s| - 1]].(next := t[0])];
    e1[t[0] := e1[t[0]].(prev := LastSlot(h, s))]
  }

  function ConcatHeads(hs: Heads, h: HeadId, s: seq<Addr>, k: HeadId, t: seq<Addr>): Heads
    requires h in hs && k in hs && t != []
  {
    hs[h := Head(if s == [] then t[0] else hs[h].first, hs[k].last)][k := Head(NULL, First(k))]
  }

  /** Distinct queues have distinct heads and entries. */
  lemma Apart(es: Entries, hs: Heads, c: map<HeadId, seq<Addr>>, h: HeadId, k: HeadId)
    requires AllQueues(es, hs, c) && h in c && k in c && h != k
    ensures h in hs && k in hs && IsQueue(es, hs, h, c[h]) && IsQueue(es, hs, k, c[k])
    ensures NoRepeats(c[h]) && forall j :: 0 <= j < |c[h]| ==> c[h][j] in es
    ensures NoRepeats(c[k]) && forall j :: 0 <= j < |c[k]| ==> c[k][j] in es
    ensures c[k] != [] ==> c[k][0] in c[k]
    ensures c[h] != [] ==> c[h][|c[h]| - 1] in c[h]
    ensures NoCommon(c[h], c[k]) && Disjoint(c) && c.Keys == hs.Keys
  {
  }

  lemma ConcatCells(es: Entries, h: HeadId, s: seq<Addr>, t: seq<Addr>)
    requires t != [] && NoRepeats(s) && NoRepeats(t) && NoCommon(s, t)
    requires (forall j :: 0 <= j < |s| ==> s[j] in es) && (forall j :: 0 <= j < |t| ==> t[j] in es)
    ensures var es' := ConcatEntries(es, h, s, t);
            && es'.Keys == es.Keys
            && (forall j :: 0 <= j < |s| ==> es'[s[j]] == if j + 1 == |s| then es[s[j]].(next := t[0]) else es[s[j]])
            && (forall j :: 0 <= j < |t| ==>
                  es'[t[j]] == if j == 0 then es[t[j]].(prev := LastSlot(h, s)) else es[t[j]])
            && (forall a :: a in es && a !in s && a !in t ==> es'[a] == es[a])
  {
    assert t[0] in t && (s != [] ==> s[|s| - 1] in s);
    assert forall j :: 0 <= j < |s| ==> s[j] in s;
    assert forall j :: 0 <= j < |t| ==> t[j] in t;
  }

  lemma ConcatEffect(es: Entries, hs: Heads, c: map<HeadId, seq<Addr>>, h: HeadId, s: seq<Addr>, k: HeadId,
                     t: seq<Addr>)
    requires h in hs && k in hs && t != [] && t[0] in es && (s != [] ==> s[|s| - 1] in es)
    requires h in c && k in c && c[h] == s && c[k] == t && h != k
    requires AllQueues(es, hs, c)
    ensures ConcatEntries(es, h, s, t).Keys == es.Keys
    ensures AllQueues(ConcatEntries(es, h, s, t), ConcatHeads(hs, h, s, k, t), c[h := s + t][k := []])
  {
    hide IsQueue, AllQueues, Disjoint, NoRepeats, ConcatEntries, NoCommon;
    Apart(es, hs, c, h, k);
    var es', hs', c' := ConcatEntries(es, h, s, t), ConcatHeads(hs, h, s, k, t), c[h := s + t][k := []];
    ConcatCells(es, h, s, t);
    Concatenated(es, hs, es', hs', h, s, k, t);
    EmptyQueue(es', hs', k);
    DisjointTwo(c, h, s + t, k, []);
    OtherQueuesTwo(es, hs, es', hs', c, c', h, k);
  }

  /** The first back link names head `h`. */
  function RehomedEntries(es: Entries, h: HeadId, t: seq<Addr>): Entries
    requires t != [] ==> t[0] in es
  {
    if t == [] then es else es[t[0] := es[t[0]].(prev := First(h))]
  }

  function SwapHeads(hs: Heads, h: HeadId, s: seq<Addr>, k: HeadId, t: seq<Addr>): Heads
    requires h in hs && k in hs
  {
    hs[h := Head(FirstOf(t), if t == [] then First(h) else hs[k].last)]
      [k := Head(FirstOf(s), if s == [] then First(k) else hs[h].last)]
  }

  /** Exchanging the heads and mending the tail slots of empty queues. */
  lemma SwapHeadsSteps(hs: Heads, h: HeadId, s: seq<Addr>, k: HeadId, t: seq<Addr>)
    requires h in hs && k in hs && h != k
    requires hs[h] == Head(FirstOf(s), LastSlot(h, s)) && hs[k] == Head(FirstOf(t), LastSlot(k, t))
    ensures var h1 := hs[h := hs[k]][k := hs[h]];
            var h2 := if t == [] then h1[h := h1[h].(last := First(h))] else h1;
            var h3 := if s == [] then h2[k := h2[k].(last := First(k))] else h2;
            h3 == SwapHeads(hs, h, s, k, t)
  {
  }

  lemma RehomedCells(es: Entries, h: HeadId, s: seq<Addr>, k: HeadId, t: seq<Addr>)
    requires NoRepeats(s) && NoRepeats(t) && NoCommon(s, t)
    requires (forall j :: 0 <= j < |s| ==> s[j] in es) && (forall j :: 0 <= j < |t| ==> t[j] in es)
    ensures var es' := RehomedEntries(RehomedEntries(es, h, t), k, s);
            && es'.Keys == es.Keys
            && (forall j :: 0 <= j < |s| ==> es'[s[j]] == if j == 0 then es[s[j]].(prev := First(k)) else es[s[j]])
            && (forall j :: 0 <= j < |t| ==> es'[t[j]] == if j == 0 then es[t[j]].(prev := First(h)) else es[t[j]])
            && (forall a :: a in es && a !in s && a !in t ==> es'[a] == es[a])
  {
    assert forall j :: 0 <= j < |s| ==> s[j] in s;
    assert forall j :: 0 <= j < |t| ==> t[j] in t;
  }

  lemma SwapEffect(es: Entries, hs: Heads, c: map<HeadId, seq<Addr>>, h: HeadId, s: seq<Addr>, k: HeadId, t: seq<Addr>)
    requires h in hs && k in hs && (t != [] ==> t[0] in es) && (s != [] ==> s[0] in es)
    requires h in c && k in c && c[h] == s && c[k] == t && h != k
    requires AllQueues(es, hs, c)
    ensures RehomedEntries(RehomedEntries(es, h, t), k, s).Keys == es.Keys
    ensures AllQueues(RehomedEntries(RehomedEntries(es, h, t), k, s), SwapHeads(hs, h, s, k, t), c[h := t][k := s])
  {
    hide IsQueue, AllQueues, Disjoint, NoRepeats, NoCommon;
    Apart(es, hs, c, h, k);
    var es', hs', c' := RehomedEntries(RehomedEntries(es, h, t), k, s), SwapHeads(hs, h, s, k, t), c[h := t][k := s];
    RehomedCells(es, h, s, k, t);
    hide RehomedEntries;
    Moved(es, hs, es', hs', h, k, t);
    Moved(es, hs, es', hs', k, h, s);
    NoCommonSym(s, t);
    DisjointTwo(c, h, t, k, s);
    OtherQueuesTwo(es, hs, es', hs', c, c', h, k);
  }

  /** What memory says around index `i` of a queue. */
  lemma Around(es: Entries, hs: Heads, c: map<HeadId, seq<Addr>>, h: HeadId, i: nat)
    requires AllQueues(es, hs, c) && h in c && i <= |c[h]|
    ensures NULL !in es && h in hs && hs[h] == Head(FirstOf(c[h]), LastSlot(h, c[h])) && IsQueue(es, hs, h, c[h])
    ensures i < |c[h]| ==> c[h][i] in c[h] && c[h][i] in es && es[c[h][i]] == EntryAt(h, c[h], i)
    ensures 0 < i ==> c[h][i - 1] in c[h] && c[h][i - 1] in es && es[c[h][i - 1]] == EntryAt(h, c[h], i - 1)
    ensures 0 < i < |c[h]| ==> c[h][i - 1] != c[h][i]
    ensures i + 1 < |c[h]| ==>
              && c[h][i + 1] in c[h] && c[h][i + 1] in es && c[h][i + 1] != c[h][i]
              && (0 < i ==> c[h][i + 1] != c[h][i - 1])
  {
  }

  /** An insertion leaves all queues right. */
  lemma InsertEffect(es: Entries, hs: Heads, c: map<HeadId, seq<Addr>>, h: HeadId, i: nat, a: Addr)
    requires AllQueues(es, hs, c) && h in c && i <= |c[h]| && a in es && Unqueued(c, a)
    ensures (i < |c[h]| ==> c[h][i] in es) && (0 < i ==> c[h][i - 1] in es) && h in hs
    ensures var es' := InsertEntry(es, h, c[h], i, a);
            AllQueues(es', InsertHeads(hs, h, c[h], i, a), c[h := InsertAt(c[h], i, a)]) && es'.Keys == es.Keys
  {
    Around(es, hs, c, h, i);
    var es', hs' := InsertEntry(es, h, c[h], i, a), InsertHeads(hs, h, c[h], i, a);
    InsertEntryCells(es, h, c[h], i, a);
    hide InsertEntry, InsertHeads;
    InsertionHolds(es, hs, es', hs', h, c[h], i, a);
    InsertAtWithin(c[h], i, a);
    assert hs' == hs[h := hs'[h]] by {
      InsertHeadsKeep(hs, h, c[h], i, a);
    }
    hide IsQueue, AllQueues, InsertAt, NoRepeats, Unqueued;
    OtherQueues(es, hs, es', hs', c, h, InsertAt(c[h], i, a));
  }

  lemma InsertHeadsKeep(hs: Heads, h: HeadId, s: seq<Addr>, i: nat, a: Addr)
    requires h in hs
    ensures InsertHeads(hs, h, s, i, a) == hs[h := InsertHeads(hs, h, s, i, a)[h]]
  {
  }

  lemma InsertAtWithin(s: seq<Addr>, i: nat, a: Addr)
    requires i <= |s|
    ensures a in InsertAt(s, i, a)
    ensures forall b :: b in InsertAt(s, i, a) <==> b in s || b == a
  {
    InsertAtCells(s, i, a);
    forall b | b in s
      ensures b in InsertAt(s, i, a)
    {
      var k :| 0 <= k < |s| && s[k] == b;
      assert InsertAt(s, i, a)[if k < i then k else k + 1] == b;
    }
  }

  /** A removal leaves all queues right, and its element in none of them. */
  lemma RemoveEffect(es: Entries, hs: Heads, c: map<HeadId, seq<Addr>>, h: HeadId, i: nat)
    requires AllQueues(es, hs, c) && h in c && i < |c[h]|
    ensures c[h][i] in es && (i + 1 < |c[h]| ==> c[h][i + 1] in es) && (0 < i ==> c[h][i - 1] in es) && h in hs
    ensures var es' := RemoveEntry(es, c[h], i);
            AllQueues(es', RemoveHeads(es, hs, h, c[h], i), c[h := RemoveAt(c[h], i)]) && es'.Keys == es.Keys
    ensures Unqueued(c[h := RemoveAt(c[h], i)], c[h][i])
  {
    Around(es, hs, c, h, i);
    var es', hs' := RemoveEntry(es, c[h], i), RemoveHeads(es, hs, h, c[h], i);
    RemoveEntryCells(es, c[h], i);
    hide RemoveEntry;
    RemovalHolds(es, hs, es', hs', h, c[h], i);
    RemoveAtCells(c[h], i);
    hide IsQueue, RemoveAt;
    RemoveAtWithin(c[h], i);
    OtherQueues(es, hs, es', hs', c, h, RemoveAt(c[h], i));
  }

  lemma RemoveAtWithin(s: seq<Addr>, i: nat)
    requires i < |s|
    ensures forall a :: a in RemoveAt(s, i) ==> a in s
  {
  }

  class TailQueues {
    var entries: Entries
    var heads: Heads
    ghost var queues: map<HeadId, seq<Addr>>

    ghost predicate Valid()
      reads this
    {
      AllQueues(entries, heads, queues)
    }

    constructor ()
      ensures Valid() && queues == map[] && entries == map[]
    {
      entries, heads, queues := map[], map[], map[];
    }

    /** An entry comes to life; what its links hold does not matter. */
    method Allocate(a: Addr, e: Entry)
      requires Valid() && a !in entries && a != NULL
      modifies `entries
      ensures Valid() && entries == old(entries)[a := e]
    {
      forall h | h in queues
        ensures IsQueue(entries[a := e], heads, h, queues[h])
      {
      }
      entries := entries[a := e];
    }

    method Free(a: Addr)
      requires Valid() && Unqueued(queues, a)
      modifies `entries
      ensures Valid() && entries == old(entries) - {a}
    {
      forall h | h in queues
        ensures IsQueue(entries - {a}, heads, h, queues[h])
      {
        assert forall i :: 0 <= i < |queues[h]| ==> queues[h][i] in queues[h];
      }
      entries := entries - {a};
    }

    /** `TAILQ_INIT`, on a new head or on one in use, whose entries are then in no
        queue. */
    method Init(h: HeadId)
      requires Valid()
      modifies this
      ensures Valid() && queues == old(queues)[h := []] && entries == old(entries)
    {
      heads := heads[h := Head(NULL, First(h))];
      queues := queues[h := []];
      forall k | k in queues
        ensures IsQueue(entries, heads, k, queues[k])
      {
        assert k != h ==> IsQueue(entries, old(heads), k, old(queues)[k]);
      }
    }

    /** `*p = a` */
    method Store(p: Slot, a: Addr)
      requires Live(entries, heads, p)
      modifies `entries, `heads
      ensures p.First? ==> entries == old(entries) && heads == old(heads)[p.head := old(heads)[p.head].(first := a)]
      ensures p.NextOf? ==> heads == old(heads) && entries == old(entries)[p.elm := old(entries)[p.elm].(next := a)]
    {
      match p
      case First(h) => heads := heads[h := heads[h].(first := a)];
      case NextOf(b) => entries := entries[b := entries[b].(next := a)];
    }

    method InsertTail(h: HeadId, elm: Addr)
      requires Valid() && h in queues && elm in entries && Unqueued(queues, elm)
      modifies this
      ensures Valid() && queues == old(queues)[h := old(queues[h]) + [elm]]
      ensures entries.Keys == old(entries.Keys)
    {
      hide AllQueues, IsQueue, NoRepeats, InsertAt;
      ghost var s := queues[h];
      Around(entries, heads, queues, h, |s|);
      InsertEffect(entries, heads, queues, h, |s|, elm);
      entries := entries[elm := entries[elm].(next := NULL)];
      entries := entries[elm := entries[elm].(prev := heads[h].last)];
      Store(heads[h].last, elm);
      heads := heads[h := heads[h].(last := NextOf(elm))];
      assert entries == InsertEntry(old(entries), h, s, |s|, elm);
      assert heads == InsertHeads(old(heads), h, s, |s|, elm);
      InsertAtEnds(s, elm);
      queues := queues[h := s + [elm]];
    }

    method InsertHead(h: HeadId, elm: Addr)
      requires Valid() && h in queues && elm in entries && Unqueued(queues, elm)
      modifies this
      ensures Valid() && queues == old(queues)[h := [elm] + old(queues[h])]
      ensures entries.Keys == old(entries.Keys)
    {
      hide AllQueues, IsQueue, NoRepeats, InsertAt;
      ghost var s := queues[h];
      Around(entries, heads, queues, h, 0);
      InsertEffect(entries, heads, queues, h, 0, elm);
      entries := entries[elm := entries[elm].(next := heads[h].first)];
      if entries[elm].next != NULL {
        entries := entries[heads[h].first := entries[heads[h].first].(prev := NextOf(elm))];
      } else {
        heads := heads[h := heads[h].(last := NextOf(elm))];
      }
      heads := heads[h := heads[h].(first := elm)];
      entries := entries[elm := entries[elm].(prev := First(h))];
      assert entries == InsertEntry(old(entries), h, s, 0, elm);
      assert heads == InsertHeads(old(heads), h, s, 0, elm);
      InsertAtEnds(s, elm);
      queues := queues[h := [elm] + s];
    }

    method InsertAfter(h: HeadId, listelm: Addr, elm: Addr, ghost i: nat)
      requires Valid() && h in queues && elm in entries && Unqueued(queues, elm)
      requires i < |queues[h]| && queues[h][i] == listelm
      modifies this
      ensures Valid() && queues == old(queues)[h := InsertAt(old(queues[h]), i + 1, elm)]
      ensures entries.Keys == old(entries.Keys)
    {
      hide AllQueues, IsQueue, NoRepeats, InsertAt;
      ghost var s := queues[h];
      Around(entries, heads, queues, h, i + 1);
      InsertEffect(entries, heads, queues, h, i + 1, elm);
      entries := entries[elm := entries[elm].(next := entries[listelm].next)];
      if entries[elm].next != NULL {
        entries := entries[entries[elm].next := entries[entries[elm].next].(prev := NextOf(elm))];
      } else {
        heads := heads[h := heads[h].(last := NextOf(elm))];
      }
      entries := entries[listelm := entries[listelm].(next := elm)];
      entries := entries[elm := entries[elm].(prev := NextOf(listelm))];
      assert entries == InsertEntry(old(entries), h, s, i + 1, elm);
      assert heads == InsertHeads(old(heads), h, s, i + 1, elm);
      queues := queues[h := InsertAt(s, i + 1, elm)];
    }

    method InsertBefore(listelm: Addr, elm: Addr, ghost h: HeadId, ghost i: nat)
      requires Valid() && h in queues && elm in entries && Unqueued(queues, elm)
      requires i < |queues[h]| && queues[h][i] == listelm
      modifies this
      ensures Valid() && queues == old(queues)[h := InsertAt(old(queues[h]), i, elm)]
      ensures entries.Keys == old(entries.Keys)
    {
      hide AllQueues, IsQueue, NoRepeats, InsertAt;
      ghost var s := queues[h];
      Around(entries, heads, queues, h, i);
      InsertEffect(entries, heads, queues, h, i, elm);
      entries := entries[elm := entries[elm].(prev := entries[listelm].prev)];
      entries := entries[elm := entries[elm].(next := listelm)];
      Store(entries[listelm].prev, elm);
      entries := entries[listelm := entries[listelm].(prev := NextOf(elm))];
      assert entries == InsertEntry(old(entries), h, s, i, elm);
      assert heads == InsertHeads(old(heads), h, s, i, elm);
      queues := queues[h := InsertAt(s, i, elm)];
    }

    method Remove(h: HeadId, elm: Addr, ghost i: nat)
      requires Valid() && h in queues && i < |queues[h]| && queues[h][i] == elm
      modifies this
      ensures Valid() && queues == old(queues)[h := RemoveAt(old(queues[h]), i)]
      ensures entries.Keys == old(entries.Keys) && Unqueued(queues, elm)
    {
      hide AllQueues, IsQueue, NoRepeats, RemoveAt;
      ghost var s := queues[h];
      Around(entries, heads, queues, h, i);
      RemoveEffect(entries, heads, queues, h, i);
      if entries[elm].next != NULL {
        entries := entries[entries[elm].next := entries[entries[elm].next].(prev := entries[elm].prev)];
      } else {
        heads := heads[h := heads[h].(last := entries[elm].prev)];
      }
      Store(entries[elm].prev, entries[elm].next);
      assert entries == RemoveEntry(old(entries), s, i);
      assert heads == RemoveHeads(old(entries), old(heads), h, s, i);
      queues := queues[h := RemoveAt(s, i)];
    }

    /** `pop` of src/cs_scheduler.c: the first entry, taken off the queue. */
    method Pop(h: HeadId) returns (head: Addr)
      requires Valid() && h in queues
      modifies this
      ensures Valid() && entries.Keys == old(entries.Keys)
      ensures old(queues[h]) == [] ==> head == NULL && queues == old(queues)
      ensures old(queues[h]) != [] ==> head == old(queues[h])[0] && queues == old(queues)[h := old(queues[h])[1..]]
      ensures old(queues[h]) != [] ==> head in entries && Unqueued(queues, head)
    {
      hide AllQueues, IsQueue, NoRepeats, Unqueued, RemoveAt;
      Around(entries, heads, queues, h, 0);
      RemoveFirst(queues[h]);
      head := heads[h].first;
      if head == NULL {
        return;
      }
      Remove(h, head, 0);
    }

    method Concat(h: HeadId, k: HeadId)
      requires Valid() && h in queues && k in queues && h != k
      modifies this
      ensures Valid() && queues == old(queues)[h := old(queues[h]) + old(queues[k])][k := []]
      ensures entries.Keys == old(entries.Keys)
    {
      hide AllQueues, IsQueue, NoRepeats, Disjoint, NoCommon;
      ghost var s, t := queues[h], queues[k];
      Around(entries, heads, queues, h, |s|);
      Around(entries, heads, queues, k, 0);
      Apart(entries, heads, queues, h, k);
      if heads[k].first != NULL {
        ConcatEffect(entries, heads, queues, h, s, k, t);
        Store(heads[h].last, heads[k].first);
        entries := entries[heads[k].first := entries[heads[k].first].(prev := heads[h].last)];
        heads := heads[h := heads[h].(last := heads[k].last)];
        heads := heads[k := Head(NULL, First(k))];
        assert entries == ConcatEntries(old(entries), h, s, t);
        assert heads == ConcatHeads(old(heads), h, s, k, t);
      } else {
        assert s + t == s;
        assert queues[h := s + t][k := []] == queues;
      }
      queues := queues[h := s + t][k := []];
    }

    /** The second half of `TAILQ_SWAP`, for one head: the first back link, or
        the tail slot of an empty queue. */
    method Rehome(h: HeadId, ghost t: seq<Addr>)
      requires h in heads && heads[h].first == FirstOf(t) && (t != [] ==> t[0] in entries && t[0] != NULL)
      modifies `entries, `heads
      ensures entries == RehomedEntries(old(entries), h, t) && entries.Keys == old(entries.Keys)
      ensures heads == if t == [] then old(heads)[h := old(heads)[h].(last := First(h))] else old(heads)
    {
      var swapFirst := heads[h].first;
      if swapFirst != NULL {
        entries := entries[swapFirst := entries[swapFirst].(prev := First(h))];
      } else {
        heads := heads[h := heads[h].(last := First(h))];
      }
    }

    /** The first half of `TAILQ_SWAP`: the two heads exchange their fields. */
    method ExchangeHeads(h: HeadId, k: HeadId)
      requires h in heads && k in heads && h != k
      modifies `heads
      ensures heads == old(heads)[h := old(heads)[k]][k := old(heads)[h]]
    {
      var swapFirst, swapLast := heads[h].first, heads[h].last;
      heads := heads[h := heads[h].(first := heads[k].first)];
      heads := heads[h := heads[h].(last := heads[k].last)];
      heads := heads[k := heads[k].(first := swapFirst)];
      heads := heads[k := heads[k].(last := swapLast)];
    }

    method Swap(h: HeadId, k: HeadId)
      requires Valid() && h in queues && k in queues && h != k
      modifies this
      ensures Valid() && queues == old(queues)[h := old(queues[k])][k := old(queues[h])]
      ensures entries.Keys == old(entries.Keys)
    {
      hide AllQueues, IsQueue, NoRepeats, Disjoint, NoCommon, RehomedEntries, SwapHeads;
      ghost var s, t := queues[h], queues[k];
      Around(entries, heads, queues, h, 0);
      Around(entries, heads, queues, k, 0);
      Apart(entries, heads, queues, h, k);
      SwapEffect(entries, heads, queues, h, s, k, t);
      SwapHeadsSteps(heads, h, s, k, t);
      ExchangeHeads(h, k);
      Rehome(h, t);
      Rehome(k, s);
      queues := queues[h := t][k := s];
    }

    function Empty(h: HeadId): (r: bool)
      requires Valid() && h in queues
      reads this
      ensures r <==> queues[h] == []
    {
      Around(entries, heads, queues, h, 0);
      heads[h].first == NULL
    }

    /** `TAILQ_LAST`: the entry or head the tail slot lies in is read as a head. */
    function Last(h: HeadId): (a: Addr)
      requires Valid() && h in queues
      reads this
      ensures a == if queues[h] == [] then NULL else queues[h][|queues[h]| - 1]
    {
      Around(entries, heads, queues, h, |queues[h]|);
      AroundPrev(entries, heads, queues, h, |queues[h]|);
      Load(entries, heads, SecondWord(entries, heads, heads[h].last))
    }

    /** `TAILQ_PREV`: likewise with the slot the entry's back link names. */
    function Prev(elm: Addr, ghost h: HeadId, ghost i: nat): (a: Addr)
      requires Valid() && h in queues && i < |queues[h]| && queues[h][i] == elm
      reads this
      ensures a == if i == 0 then NULL else queues[h][i - 1]
    {
      Around(entries, heads, queues, h, i);
      AroundPrev(entries, heads, queues, h, i);
      Load(entries, heads, SecondWord(entries, heads, entries[elm].prev))
    }

    /** `TAILQ_FOREACH`, recording the entries it visits. */
    method Foreach(h: HeadId) returns (visited: seq<Addr>)
      requires Valid() && h in queues
      ensures visited == queues[h]
    {
      hide AllQueues, NoRepeats;
      Around(entries, heads, queues, h, 0);
      visited := [];
      var elm := heads[h].first;
      while elm != NULL
        invariant |visited| <= |queues[h]| && visited == queues[h][..|visited|]
        invariant elm == if |visited| < |queues[h]| then queues[h][|visited|] else NULL
        decreases |queues[h]| - |visited|
      {
        Around(entries, heads, queues, h, |visited|);
        visited := visited + [elm];
        elm := entries[elm].next;
      }
      Around(entries, heads, queues, h, |visited|);
    }

    /** `TAILQ_FOREACH_REVERSE`. */
    method ForeachReverse(h: HeadId) returns (visited: seq<Addr>)
      requires Valid() && h in queues
      ensures visited == Reverse(queues[h])
    {
      hide AllQueues, NoRepeats;
      visited := [];
      ghost var n: nat := |queues[h]|;
      ReverseNone(queues[h]);
      var elm := Last(h);
      while elm != NULL
        invariant 0 <= n <= |queues[h]| && visited == Reverse(queues[h][n..])
        invariant elm == if n == 0 then NULL else queues[h][n - 1]
        decreases n
      {
        Around(entries, heads, queues, h, n);
        ReverseOneMore(queues[h], n);
        visited := visited + [elm];
        n := n - 1;
        elm := Prev(elm, h, n);
      }
      Around(entries, heads, queues, h, n);
    }
  }
}
