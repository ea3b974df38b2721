/**
 * The three container classes of the `Filas` package: a FIFO queue backed by
 * a deque (`FilaSimples`), a LIFO stack backed by a list (`Pilha`) and a
 * min-priority queue backed by a `heapq` binary heap (`FilaPrioridade`).
 * Each Python object becomes a class whose list field is a `seq` that the
 * methods reassign; `None` results become `Option.None`.
 */
module Filas {
  import opened Wrappers
  import opened Strings
  import opened Seqs

  // =====================================================================
  // FilaSimples: FIFO queue
  // =====================================================================

  class FilaSimples<T> {
    /** The deque, front first. */
    var fila: seq<T>

    constructor ()
      ensures fila == []
    {
      fila := [];
    }

    /** `len(self.fila)`. */
    function Tamanho(): nat
      reads this
    {
      |fila|
    }

    /** The queue is empty exactly when its size is zero. */
    function EstaVazia(): (vazia: bool)
      reads this
      ensures vazia <==> Tamanho() == 0
    {
      fila == []
    }

    /** The contents, front to back; reading them changes nothing. */
    function ExibirFila(): (itens: seq<T>)
      reads this
      ensures |itens| == Tamanho()
      ensures forall i :: 0 <= i < |itens| ==> itens[i] == fila[i]
    {
      fila
    }

    /** Enqueue at the back. */
    method Inserir(item: T)
      modifies this
      ensures fila == old(fila) + [item]
      ensures Tamanho() == old(Tamanho()) + 1
    {
      fila := fila + [item];
    }

    /** Dequeue the front item; on an empty queue return `None` and change nothing. */
    method Remover() returns (r: Option<T>)
      modifies this
      ensures old(fila) == [] ==> r == None && fila == old(fila)
      ensures old(fila) != [] ==> r == Some(old(fila)[0]) && fila == old(fila)[1..]
    {
      if fila != [] {
        r := Some(fila[0]);
        fila := fila[1..];
      } else {
        r := None;
      }
    }
  }

  // =====================================================================
  // Pilha: LIFO stack
  // =====================================================================

  class Pilha<T> {
    /** The list, bottom first; the top is the last element. */
    var pilha: seq<T>

    constructor ()
      ensures pilha == []
    {
      pilha := [];
    }

    /** `len(self.pilha)`. */
    function Tamanho(): nat
      reads this
    {
      |pilha|
    }

    /** The stack is empty exactly when its size is zero. */
    function EstaVazia(): (vazia: bool)
      reads this
      ensures vazia <==> Tamanho() == 0
    {
      |pilha| == 0
    }

    /** The items from top to bottom: the list reversed, the stack itself untouched. */
    function ExibirPilha(): (itens: seq<T>)
      reads this
      ensures |itens| == Tamanho()
      ensures forall i :: 0 <= i < |itens| ==> itens[i] == pilha[|pilha| - 1 - i]
    {
      ReversedAt(pilha);
      Reversed(pilha)
    }

    /** Push on top. */
    method Empilhar(item: T)
      modifies this
      ensures pilha == old(pilha) + [item]
      ensures Tamanho() == old(Tamanho()) + 1
    {
      pilha := pilha + [item];
    }

    /** Pop the most recently pushed item; on an empty stack return `None` and change nothing. */
    method Desempilhar() returns (r: Option<T>)
      modifies this
      ensures old(pilha) == [] ==> r == None && pilha == old(pilha)
      ensures old(pilha) != [] ==> r == Some(old(pilha)[|old(pilha)| - 1]) && pilha == old(pilha)[..|old(pilha)| - 1]
    {
      if pilha != [] {
        r := Some(pilha[|pilha| - 1]);
        pilha := pilha[..|pilha| - 1];
      } else {
        r := None;
      }
    }
  }

  // =====================================================================
  // FilaPrioridade: min-priority queue over a binary heap of
  // (prioridade, item) tuples
  // =====================================================================

  /** One heap entry: the tuple `(prioridade, item)`. */
  type Entry = (int, string)

  /** Tuple comparison `a <= b`: by priority, then by item. */
  predicate TaskEntryLe(a: Entry, b: Entry) {
    a.0 < b.0 || (a.0 == b.0 && StrLe(a.1, b.1))
  }

  /** Tuple comparison `a < b`. */
  predicate TaskEntryLt(a: Entry, b: Entry) {
    TaskEntryLe(a, b) && a != b
  }

  lemma TaskEntryLeTransitive(a: Entry, b: Entry, c: Entry)
    requires TaskEntryLe(a, b) && TaskEntryLe(b, c)
    ensures TaskEntryLe(a, c)
  {
    if a.0 == b.0 && b.0 == c.0 {
      StrLeTransitive(a.1, b.1, c.1);
    }
  }

  lemma TaskEntryLeTotal(a: Entry, b: Entry)
    ensures TaskEntryLe(a, b) || TaskEntryLe(b, a)
  {
    StrLeTotal(a.1, b.1);
  }

  lemma TaskEntryLeAntisymmetric(a: Entry, b: Entry)
    requires TaskEntryLe(a, b) && TaskEntryLe(b, a)
    ensures a == b
  {
    StrLeAntisymmetric(a.1, b.1);
  }

  /** Index of the parent of heap slot `i > 0`. */
  function Parent(i: nat): nat
    requires i > 0
  {
    (i - 1) / 2
  }

  /** The `heapq` invariant: no entry is smaller than its parent. */
  ghost predicate IsHeap(h: seq<Entry>) {
    forall i :: 0 < i < |h| ==> TaskEntryLe(h[Parent(i)], h[i])
  }

  /** In a heap the root is a least entry. */
  lemma {:induction false} RootIsLeast(h: seq<Entry>, i: nat)
    requires IsHeap(h) && i < |h|
    ensures TaskEntryLe(h[0], h[i])
    decreases i
  {
    if i == 0 {
      StrLeReflexive(h[0].1);
    } else {
      RootIsLeast(h, Parent(i));
      TaskEntryLeTransitive(h[0], h[Parent(i)], h[i]);
    }
  }

  /** In a heap the root is no larger than any entry. */
  lemma RootIsLeastOf(h: seq<Entry>)
    requires IsHeap(h) && |h| > 0
    ensures forall e :: e in multiset(h) ==> TaskEntryLe(h[0], e)
  {
    forall e | e in multiset(h)
      ensures TaskEntryLe(h[0], e)
    {
      var i :| 0 <= i < |h| && h[i] == e;
      RootIsLeast(h, i);
    }
  }

  /** Exchanging two slots keeps the same entries. */
  lemma SwapPermutes(h: seq<Entry>, i: nat, j: nat)
    requires i < |h| && j < |h|
    ensures multiset(h[i := h[j]][j := h[i]]) == multiset(h)
  {
    var h1 := h[i := h[j]];
    assert multiset(h1) == multiset(h) - multiset{h[i]} + multiset{h[j]};
    assert h1[j] == h[j];
    assert multiset(h1[j := h[i]]) == multiset(h1) - multiset{h[j]} + multiset{h[i]};
  }

  /**
   * Heap order holds everywhere except possibly between slot `k` and its
   * parent, and the parent of `k` is no larger than the children of `k`:
   * the state while an entry rises.
   */
  ghost predicate HeapExceptAt(h: seq<Entry>, k: nat) {
    && (forall i :: 0 < i < |h| && i != k ==> TaskEntryLe(h[Parent(i)], h[i]))
    && (k > 0 ==> forall c :: 0 < c < |h| && Parent(c) == k ==> TaskEntryLe(h[Parent(k)], h[c]))
  }

  /**
   * Heap order holds everywhere except possibly between slot `k` and its
   * children, and the parent of `k` is no larger than the children of `k`:
   * the state while an entry sinks.
   */
  ghost predicate HeapExceptBelow(h: seq<Entry>, k: nat) {
    && (forall i :: 0 < i < |h| && Parent(i) != k ==> TaskEntryLe(h[Parent(i)], h[i]))
    && (k > 0 ==> forall c :: 0 < c < |h| && Parent(c) == k ==> TaskEntryLe(h[Parent(k)], h[c]))
  }

  /** One step of sifting up: swapping a too-small entry with its parent moves the fault up. */
  lemma SiftUpStep(h: seq<Entry>, k: nat)
    requires 0 < k < |h| && HeapExceptAt(h, k) && TaskEntryLt(h[k], h[Parent(k)])
    ensures HeapExceptAt(h[k := h[Parent(k)]][Parent(k) := h[k]], Parent(k))
  {
    var p := Parent(k);
    var h' := h[k := h[p]][p := h[k]];
    forall i | 0 < i < |h'| && i != p
      ensures TaskEntryLe(h'[Parent(i)], h'[i])
    {
      if i == k {
      } else if Parent(i) == k {
        assert TaskEntryLe(h[p], h[i]);
      } else if Parent(i) == p {
        TaskEntryLeTransitive(h[k], h[p], h[i]);
      } else {
        assert h'[Parent(i)] == h[Parent(i)] && h'[i] == h[i];
      }
    }
    if p > 0 {
      forall c | 0 < c < |h'| && Parent(c) == p
        ensures TaskEntryLe(h'[Parent(p)], h'[c])
      {
        assert TaskEntryLe(h[Parent(p)], h[p]);
        if c != k {
          TaskEntryLeTransitive(h[Parent(p)], h[p], h[c]);
        }
      }
    }
  }

  /** One step of sifting down: swapping an entry with a least, smaller child moves the fault down. */
  lemma SiftDownStep(h: seq<Entry>, k: nat, c: nat)
    requires 0 < c < |h| && Parent(c) == k && HeapExceptBelow(h, k)
    requires forall d :: 0 < d < |h| && Parent(d) == k ==> TaskEntryLe(h[c], h[d])
    requires TaskEntryLt(h[c], h[k])
    ensures HeapExceptBelow(h[k := h[c]][c := h[k]], c)
  {
    var h' := h[k := h[c]][c := h[k]];
    forall i | 0 < i < |h'| && Parent(i) != c
      ensures TaskEntryLe(h'[Parent(i)], h'[i])
    {
      if i == c {
      } else if Parent(i) == k {
      } else if i == k {
        assert TaskEntryLe(h[Parent(k)], h[c]);
      } else {
        assert h'[Parent(i)] == h[Parent(i)] && h'[i] == h[i];
      }
    }
    forall d | 0 < d < |h'| && Parent(d) == c
      ensures TaskEntryLe(h'[Parent(c)], h'[d])
    {
      assert TaskEntryLe(h[c], h[d]);
    }
  }

  /** The child the sift-down loop picks is no larger than any child of `k`. */
  lemma LeastChild(h: seq<Entry>, k: nat, c: nat)
    requires 2 * k + 1 < |h|
    requires c == (if 2 * k + 2 < |h| && TaskEntryLt(h[2 * k + 2], h[2 * k + 1]) then 2 * k + 2 else 2 * k + 1)
    ensures 0 < c < |h| && Parent(c) == k
    ensures forall d :: 0 < d < |h| && Parent(d) == k ==> TaskEntryLe(h[c], h[d])
  {
    StrLeReflexive(h[c].1);
    if 2 * k + 2 < |h| {
      TaskEntryLeTotal(h[2 * k + 1], h[2 * k + 2]);
    }
  }

  /** A node without children cannot be out of order with them. */
  lemma LeafDone(h: seq<Entry>, k: nat)
    requires HeapExceptBelow(h, k) && 2 * k + 1 >= |h|
    ensures IsHeap(h)
  {
    forall i | 0 < i < |h| && Parent(i) == k
      ensures false
    {
    }
  }

  /** Sinking stops once the least child of `k` is no smaller than the entry at `k`. */
  lemma SinkDone(h: seq<Entry>, k: nat, c: nat)
    requires 0 < c < |h| && Parent(c) == k && HeapExceptBelow(h, k)
    requires forall d :: 0 < d < |h| && Parent(d) == k ==> TaskEntryLe(h[c], h[d])
    requires !TaskEntryLt(h[c], h[k])
    ensures IsHeap(h)
  {
    TaskEntryLeTotal(h[c], h[k]);
    forall d | 0 < d < |h| && Parent(d) == k
      ensures TaskEntryLe(h[k], h[d])
    {
      TaskEntryLeTransitive(h[k], h[c], h[d]);
    }
  }

  /** heappop's first move: the last entry replaces the root, leaving only the root out of order. */
  lemma LastToRoot(h: seq<Entry>)
    requires IsHeap(h) && |h| >= 2
    ensures HeapExceptBelow(h[..|h| - 1][0 := h[|h| - 1]], 0)
    ensures multiset(h[..|h| - 1][0 := h[|h| - 1]]) == multiset(h) - multiset{h[0]}
  {
    var last := h[|h| - 1];
    var h' := h[..|h| - 1][0 := last];
    assert h == [h[0]] + h[1..|h| - 1] + [last];
    assert h' == [last] + h[1..|h| - 1];
    forall i | 0 < i < |h'| && Parent(i) != 0
      ensures TaskEntryLe(h'[Parent(i)], h'[i])
    {
      assert h'[Parent(i)] == h[Parent(i)] && h'[i] == h[i];
    }
  }

  class FilaPrioridade {
    /** The `heapq` list. */
    var fila: seq<Entry>

    ghost predicate Valid()
      reads this
    {
      IsHeap(fila)
    }

    constructor ()
      ensures Valid() && fila == []
    {
      fila := [];
    }

    /** `len(self.fila)`. */
    function Tamanho(): nat
      reads this
    {
      |fila|
    }

    /** `heappush(self.fila, (prioridade, item))`: one more entry, heap order kept. */
    method Inserir(prioridade: int, item: string)
      requires Valid()
      modifies this
      ensures Valid()
      ensures multiset(fila) == old(multiset(fila)) + multiset{(prioridade, item)}
      ensures Tamanho() == old(Tamanho()) + 1
    {
      fila := fila + [(prioridade, item)];
      var k := |fila| - 1;
      // sift the new entry up towards the root
      while k > 0 && TaskEntryLt(fila[k], fila[Parent(k)])
        invariant 0 <= k < |fila| == |old(fila)| + 1
        invariant multiset(fila) == old(multiset(fila)) + multiset{(prioridade, item)}
        invariant HeapExceptAt(fila, k)
        decreases k
      {
        var p := Parent(k);
        SwapPermutes(fila, k, p);
        SiftUpStep(fila, k);
        fila := fila[k := fila[p]][p := fila[k]];
        k := p;
      }
      if k > 0 {
        TaskEntryLeTotal(fila[k], fila[Parent(k)]);
      }
    }

    /**
     * Move the root entry down until heap order is restored: a classic
     * sift-down. `heapq`'s bottom-up `_siftup` variant is not modelled; the
     * list layout may differ from it on ties, the multiset of entries does not.
     */
    method SiftDown()
      requires 0 < |fila| && HeapExceptBelow(fila, 0)
      modifies this
      ensures IsHeap(fila)
      ensures multiset(fila) == old(multiset(fila))
    {
      var k := 0;
      while 2 * k + 1 < |fila|
        invariant 0 <= k < |fila| == |old(fila)|
        invariant multiset(fila) == old(multiset(fila))
        invariant HeapExceptBelow(fila, k)
        decreases |fila| - k
      {
        var c := 2 * k + 1;
        if c + 1 < |fila| && TaskEntryLt(fila[c + 1], fila[c]) {
          c := c + 1;
        }
        LeastChild(fila, k, c);
        if !TaskEntryLt(fila[c], fila[k]) {
          SinkDone(fila, k, c);
          return;
        }
        SwapPermutes(fila, k, c);
        SiftDownStep(fila, k, c);
        fila := fila[k := fila[c]][c := fila[k]];
        k := c;
      }
      LeafDone(fila, k);
    }

    /**
     * `heappop(self.fila)[1]`: the item of a least entry, which is removed;
     * on an empty queue `None`, nothing changed.
     */
    method Remover() returns (r: Option<string>)
      requires Valid()
      modifies this
      ensures Valid()
      ensures old(fila) == [] ==> r == None && fila == old(fila)
      ensures old(fila) != [] ==>
        && old(fila)[0] in old(multiset(fila))
        && (forall e :: e in old(multiset(fila)) ==> TaskEntryLe(old(fila)[0], e))
        && r == Some(old(fila)[0].1)
        && multiset(fila) == old(multiset(fila)) - multiset{old(fila)[0]}
    {
      if fila == [] {
        r := None;
        return;
      }
      RootIsLeastOf(fila);
      var top := fila[0];
      if |fila| == 1 {
        fila := [];
      } else {
        LastToRoot(fila);
        fila := fila[..|fila| - 1][0 := fila[|fila| - 1]];
        SiftDown();
      }
      r := Some(top.1);
    }
  }

  // =====================================================================
  // The scenarios the structures' demonstration script runs
  // =====================================================================

  /** Enqueue A, B, C; dequeue yields A and leaves [B, C]. */
  method DemoFilaSimples() returns (removido: Option<string>, restante: seq<string>, vazia: bool)
    ensures removido == Some("A")
    ensures restante == ["B", "C"]
    ensures !vazia
  {
    var fila := new FilaSimples<string>();
    fila.Inserir("A");
    fila.Inserir("B");
    fila.Inserir("C");
    removido := fila.Remover();
    restante := fila.ExibirFila();
    vazia := fila.EstaVazia();
  }

  /** Push X, Y, Z; the view is [Z, Y, X], pop yields Z and leaves the view [Y, X]. */
  method DemoPilha() returns (antes: seq<string>, desempilhado: Option<string>, depois: seq<string>, vazia: bool)
    ensures antes == ["Z", "Y", "X"]
    ensures desempilhado == Some("Z")
    ensures depois == ["Y", "X"]
    ensures !vazia
  {
    var pilha := new Pilha<string>();
    pilha.Empilhar("X");
    pilha.Empilhar("Y");
    pilha.Empilhar("Z");
    antes := pilha.ExibirPilha();
    desempilhado := pilha.Desempilhar();
    depois := pilha.ExibirPilha();
    vazia := pilha.EstaVazia();
  }

  /** Insert priorities 2, 1, 3; two removals yield the priority-1 item, then the priority-2 item. */
  method DemoFilaPrioridade() returns (tamanho: nat, primeiro: Option<string>, segundo: Option<string>)
    ensures tamanho == 3
    ensures primeiro == Some("Tarefa urgente")
    ensures segundo == Some("Tarefa média")
  {
    var fila := new FilaPrioridade();
    var media, urgente, baixa := (2, "Tarefa média"), (1, "Tarefa urgente"), (3, "Tarefa baixa prioridade");
    fila.Inserir(media.0, media.1);
    fila.Inserir(urgente.0, urgente.1);
    fila.Inserir(baixa.0, baixa.1);
    tamanho := fila.Tamanho();
    ghost var m3 := multiset(fila.fila);
    ghost var raiz := fila.fila[0];
    primeiro := fila.Remover();
    LeastOfThree(m3, raiz, urgente, media, baixa);
    ghost var m2 := multiset(fila.fila);
    raiz := fila.fila[0];
    segundo := fila.Remover();
    LeastOfTwo(m2, raiz, media, baixa);
  }

  /** Of three entries with distinct priorities, the least is the one of lowest priority. */
  lemma LeastOfThree(m: multiset<Entry>, r: Entry, a: Entry, b: Entry, c: Entry)
    requires m == multiset{a, b, c} && a.0 < b.0 < c.0
    requires r in m && forall e :: e in m ==> TaskEntryLe(r, e)
    ensures r == a && m - multiset{r} == multiset{b, c}
  {
    assert TaskEntryLe(r, a);
    assert r == a;
    assert m - multiset{a} == multiset{b, c};
  }

  /** Of two entries with distinct priorities, the least is the one of lower priority. */
  lemma LeastOfTwo(m: multiset<Entry>, r: Entry, a: Entry, b: Entry)
    requires m == multiset{a, b} && a.0 < b.0
    requires r in m && forall e :: e in m ==> TaskEntryLe(r, e)
    ensures r == a
  {
    assert TaskEntryLe(r, a);
  }
}
