/** The payment-approval ledger of the admin panel: the list of payments
    for private worlds, approving and rejecting them, the status filter, the
    summary statistics, and the list of users whose access was approved.
    It is also the ledger the server fleet consults before a private
    server may be created. */
module PaymentLedger {
  import opened Common

  datatype PaymentStatus = Pending | Approved

  /** A payment; `valor` is held in integer cents (4.99 is 499). */
  datatype Payment = Payment(
    id: string,
    userId: string,
    userName: string,
    comprovanteUrl: string,
    dataPagamento: string,
    status: PaymentStatus,
    valor: int)

  /** The stored payments and the stored list of approved user ids. */
  datatype Ledger = Ledger(pagamentos: seq<Payment>, aprovados: seq<string>)

  /** `pagamentos.find(p => p.id === id)`. */
  function FindPayment(ps: seq<Payment>, id: string): (r: Option<Payment>)
    ensures r.None? <==> forall i :: 0 <= i < |ps| ==> ps[i].id != id
    ensures r.Some? ==> r.value in ps && r.value.id == id
    ensures r.Some? ==> exists i :: 0 <= i < |ps| && ps[i] == r.value && forall k :: 0 <= k < i ==> ps[k].id != id
  {
    if ps == [] then None
    else if ps[0].id == id then Some(ps[0])
    else
      var r := FindPayment(ps[1..], id);
      if r.Some? then
        var i :| 0 <= i < |ps[1..]| && ps[1..][i] == r.value && forall k :: 0 <= k < i ==> ps[1..][k].id != id;
        assert ps[i + 1] == r.value && forall k :: 0 <= k < i + 1 ==> ps[k].id != id;
        r
      else r
  }

  /** `pagamentos.map(p => p.id === id ? { ...p, status: 'Aprovado' } : p)`. */
  function MarkApproved(ps: seq<Payment>, id: string): (r: seq<Payment>)
    ensures |r| == |ps|
    ensures forall i :: 0 <= i < |ps| && ps[i].id == id ==> r[i] == ps[i].(status := Approved)
    ensures forall i :: 0 <= i < |ps| && ps[i].id != id ==> r[i] == ps[i]
  {
    if ps == [] then []
    else [if ps[0].id == id then ps[0].(status := Approved) else ps[0]] + MarkApproved(ps[1..], id)
  }

  /** `handleApprove(id)`: an unknown id changes nothing; otherwise every
      payment with that id is approved and the payer's user id is added to
      the approved users unless it is already there. */
  function Approve(l: Ledger, id: string): (r: Ledger)
    ensures FindPayment(l.pagamentos, id).None? ==> r == l
    ensures FindPayment(l.pagamentos, id).Some? ==>
      var u := FindPayment(l.pagamentos, id).value.userId;
      && r.pagamentos == MarkApproved(l.pagamentos, id)
      && u in r.aprovados
      && (forall x :: x in r.aprovados <==> x in l.aprovados || x == u)
      && (NoDup(l.aprovados) ==> NoDup(r.aprovados))
  {
    match FindPayment(l.pagamentos, id)
    case None => l
    case Some(p) =>
      var aprovados := if p.userId in l.aprovados then l.aprovados else l.aprovados + [p.userId];
      NoDupAppend(l.aprovados, p.userId);
      Ledger(MarkApproved(l.pagamentos, id), aprovados)
  }

  /** Approving the same payment twice is the same as approving it once. */
  lemma {:induction false} ApproveIdempotent(l: Ledger, id: string)
    ensures Approve(Approve(l, id), id) == Approve(l, id)
  {
    var r := Approve(l, id);
    if FindPayment(l.pagamentos, id).Some? {
      MarkApprovedIdempotent(l.pagamentos, id);
      MarkApprovedKeepsPayers(l.pagamentos, id);
    }
  }

  lemma {:induction false} MarkApprovedIdempotent(ps: seq<Payment>, id: string)
    ensures MarkApproved(MarkApproved(ps, id), id) == MarkApproved(ps, id)
  {
    if ps != [] {
      MarkApprovedIdempotent(ps[1..], id);
      assert MarkApproved(ps, id)[1..] == MarkApproved(ps[1..], id);
    }
  }

  /** Approval keeps ids and payers: the payment found for an id after
      approval belongs to the same user. */
  lemma {:induction false} MarkApprovedKeepsPayers(ps: seq<Payment>, id: string)
    ensures FindPayment(MarkApproved(ps, id), id).Some? == FindPayment(ps, id).Some?
    ensures FindPayment(ps, id).Some? ==>
      FindPayment(MarkApproved(ps, id), id).value.userId == FindPayment(ps, id).value.userId
  {
    if ps != [] {
      MarkApprovedKeepsPayers(ps[1..], id);
      assert MarkApproved(ps, id)[1..] == MarkApproved(ps[1..], id);
    }
  }

  /** `pagamentos.filter(p => p.id !== id)`. */
  function RemovePayment(ps: seq<Payment>, id: string): seq<Payment>
  {
    if ps == [] then []
    else if ps[0].id == id then RemovePayment(ps[1..], id)
    else [ps[0]] + RemovePayment(ps[1..], id)
  }

  /** What removal keeps: exactly the payments with another id; with no
      payment of that id, everything. */
  lemma {:induction false} RemovePaymentKeeps(ps: seq<Payment>, id: string)
    ensures forall p :: p in RemovePayment(ps, id) <==> p in ps && p.id != id
    ensures (forall i :: 0 <= i < |ps| ==> ps[i].id != id) ==> RemovePayment(ps, id) == ps
  {
    if ps != [] {
      RemovePaymentKeeps(ps[1..], id);
      assert ps == [ps[0]] + ps[1..];
    }
  }

  /** Removal distributes over concatenation: what is kept keeps its order. */
  lemma {:induction false} RemovePaymentConcat(a: seq<Payment>, b: seq<Payment>, id: string)
    ensures RemovePayment(a + b, id) == RemovePayment(a, id) + RemovePayment(b, id)
  {
    if a == [] {
      assert a + b == b;
      assert RemovePayment(a, id) == [];
    } else {
      RemovePaymentConcat(a[1..], b, id);
      assert (a + b)[0] == a[0] && (a + b)[1..] == a[1..] + b;
      if a[0].id != id {
        var ra, rb := RemovePayment(a[1..], id), RemovePayment(b, id);
        assert [a[0]] + ra + rb == [a[0]] + (ra + rb);
      }
    }
  }

  /** `handleReject(id)` after the confirmation dialog answered `confirmed`:
      exactly the payments with that id are removed. */
  function Reject(l: Ledger, id: string, confirmed: bool): (r: Ledger)
    ensures !confirmed ==> r == l
    ensures confirmed ==> (r.aprovados == l.aprovados
      && forall p :: p in r.pagamentos <==> p in l.pagamentos && p.id != id)
  {
    RemovePaymentKeeps(l.pagamentos, id);
    if !confirmed then l else l.(pagamentos := RemovePayment(l.pagamentos, id))
  }

  /** The status filter of the panel. */
  datatype StatusFilter = All | Only(status: PaymentStatus)

  function WithStatus(ps: seq<Payment>, st: PaymentStatus): (r: seq<Payment>)
    ensures forall p :: p in r <==> p in ps && p.status == st
    ensures |r| <= |ps|
  {
    if ps == [] then []
    else (if ps[0].status == st then [ps[0]] else []) + WithStatus(ps[1..], st)
  }

  /** `filteredPagamentos`. */
  function Filtered(ps: seq<Payment>, f: StatusFilter): (r: seq<Payment>)
    ensures f.All? ==> r == ps
    ensures f.Only? ==> forall p :: p in r <==> p in ps && p.status == f.status
  {
    match f
    case All => ps
    case Only(st) => WithStatus(ps, st)
  }

  function Revenue(ps: seq<Payment>): int {
    if ps == [] then 0 else ps[0].valor + Revenue(ps[1..])
  }

  datatype Stats = Stats(total: nat, pendentes: nat, aprovados: nat, receita: int)

  /** The panel's `stats`: counts per status and the approved revenue. */
  function ComputeStats(ps: seq<Payment>): Stats {
    var approved := WithStatus(ps, Approved);
    Stats(|ps|, |WithStatus(ps, Pending)|, |approved|, Revenue(approved))
  }

  /** The approved revenue as one pass over the payments, each counting its
      value when approved and nothing otherwise. */
  function ApprovedValue(ps: seq<Payment>): int {
    if ps == [] then 0 else (if ps[0].status == Approved then ps[0].valor else 0) + ApprovedValue(ps[1..])
  }

  /** Every payment is either pending or approved, so the two counts add up
      to the total; the revenue is the sum of the approved values only. */
  lemma {:induction false} StatsPartition(ps: seq<Payment>)
    ensures ComputeStats(ps).pendentes + ComputeStats(ps).aprovados == ComputeStats(ps).total
    ensures ComputeStats(ps).receita == ApprovedValue(ps)
  {
    if ps != [] {
      StatsPartition(ps[1..]);
      var t := WithStatus(ps[1..], Approved);
      if ps[0].status == Approved {
        assert WithStatus(ps, Approved) == [ps[0]] + t;
        assert ([ps[0]] + t)[1..] == t;
      } else {
        assert WithStatus(ps, Approved) == [] + t;
        assert [] + t == t;
      }
    }
  }

  /** With no pending payment the revenue is the sum over all payments. */
  lemma {:induction false} RevenueAllApproved(ps: seq<Payment>)
    requires forall i :: 0 <= i < |ps| ==> ps[i].status == Approved
    ensures ComputeStats(ps).receita == Revenue(ps)
    ensures ComputeStats(ps).pendentes == 0
  {
    if ps != [] {
      RevenueAllApproved(ps[1..]);
    }
  }

  /** `verificarPermissaoServidorPrivado`: some payment of the user is approved. */
  predicate HasPrivateAccess(ps: seq<Payment>, userId: string) {
    exists p :: p in ps && p.userId == userId && p.status == Approved
  }

  /** Approving a payment grants its payer private access. */
  lemma ApproveGrantsAccess(l: Ledger, id: string)
    requires FindPayment(l.pagamentos, id).Some?
    ensures HasPrivateAccess(Approve(l, id).pagamentos, FindPayment(l.pagamentos, id).value.userId)
  {
    var p := FindPayment(l.pagamentos, id).value;
    var i :| 0 <= i < |l.pagamentos| && l.pagamentos[i] == p;
    assert Approve(l, id).pagamentos[i] == p.(status := Approved);
  }
}
