/** Linking a verified caller to a customers row, one statement at a time, among other callers doing the same. */
module Customers {
  import opened Tables

  /** `subject` and `email` as the token carries them; an empty subject means there is none. */
  datatype Claims = Claims(subject: string, email: string)

  datatype Customer = Customer(email: string, sub: Option<string>)

  type CustomerTable = map<CustomerId, Customer>

  datatype LinkError = LinkNoRows | UniqueViolation

  datatype Linked = Row(customers: CustomerTable, id: CustomerId) | Refused(error: LinkError)

  const LINK_ATTEMPTS: nat := 3

  /** Both unique constraints of the table. */
  ghost predicate Unique(cs: CustomerTable) {
    (forall i, j :: i in cs && j in cs && cs[i].email == cs[j].email ==> i == j) &&
    (forall i, j :: i in cs && j in cs && cs[i].sub.Some? && cs[i].sub == cs[j].sub ==> i == j)
  }

  function SubOf(claims: Claims): Option<string> {
    if claims.subject != "" then Some(claims.subject) else None
  }

  /** The row a subject is recorded on, if any. */
  ghost function FindBySub(cs: CustomerTable, sub: string): (r: Option<CustomerId>)
    ensures r.Some? ==> r.value in cs && cs[r.value].sub == Some(sub)
    ensures r.None? ==> forall i :: i in cs ==> cs[i].sub != Some(sub)
  {
    if i :| i in cs && cs[i].sub == Some(sub) then Some(i) else None
  }

  ghost function FindByEmail(cs: CustomerTable, email: string): (r: Option<CustomerId>)
    ensures r.Some? ==> r.value in cs && cs[r.value].email == email
    ensures r.None? ==> forall i :: i in cs ==> cs[i].email != email
  {
    if i :| i in cs && cs[i].email == email then Some(i) else None
  }

  /** Gives a row a new email, unless another row has it. */
  ghost function UpdateEmail(cs: CustomerTable, id: CustomerId, email: string): Linked {
    var holder := FindByEmail(cs, email);
    if id !in cs then Refused(LinkNoRows)
    else if holder.Some? && holder.value != id then Refused(UniqueViolation)
    else Row(cs[id := cs[id].(email := email)], id)
  }

  /** Finds the email's row or makes one with the id `drawn`; the first subject recorded on a row is kept. */
  ghost function Upsert(cs: CustomerTable, drawn: CustomerId, email: string, sub: Option<string>): Linked {
    var holder := FindByEmail(cs, email);
    var bound := if sub.Some? then FindBySub(cs, sub.value) else None;
    if holder.Some? then
      if cs[holder.value].sub.Some? || sub.None? then Row(cs, holder.value)
      else if bound.Some? then Refused(UniqueViolation)
      else Row(cs[holder.value := cs[holder.value].(sub := sub)], holder.value)
    else if bound.Some? then Refused(UniqueViolation)
    else Row(cs[drawn := Customer(email, sub)], drawn)
  }

  /** One pass of Link with nobody else writing: by subject first, then the upsert on email. */
  ghost function LinkAlone(cs: CustomerTable, drawn: CustomerId, claims: Claims): Linked {
    var found := if claims.subject != "" then FindBySub(cs, claims.subject) else None;
    if found.None? then Upsert(cs, drawn, claims.email, SubOf(claims))
    else if cs[found.value].email == claims.email || claims.email == "" then Row(cs, found.value)
    else UpdateEmail(cs, found.value, claims.email)
  }

  /** An undisturbed Link fails exactly when its subject's new email already belongs to another row. */
  lemma LinkFailsIff(cs: CustomerTable, drawn: CustomerId, claims: Claims)
    ensures LinkAlone(cs, drawn, claims).Refused? <==>
      claims.subject != "" && FindBySub(cs, claims.subject).Some? && claims.email != "" &&
      var id := FindBySub(cs, claims.subject).value;
      cs[id].email != claims.email && FindByEmail(cs, claims.email).Some? && FindByEmail(cs, claims.email).value != id
    ensures LinkAlone(cs, drawn, claims).Refused? ==> LinkAlone(cs, drawn, claims).error == UniqueViolation
  {
  }

  // ---- The machine ------------------------------------------------------------------------

  datatype LinkPc =
    | Find
    | Adopt(row: CustomerId)
    | Insert
    | Returned(id: CustomerId)
    | GaveUp(error: LinkError)

  /** `left` counts the passes of Link's retry loop, the current one included. */
  datatype Linking = Linking(claims: Claims, left: nat, pc: LinkPc)

  datatype Directory = Directory(customers: CustomerTable, linkings: map<nat, Linking>)

  datatype LinkLabel = Call(t: nat, claims: Claims) | Step(t: nat, drawn: CustomerId)

  function Retry(x: Linking, error: LinkError): Linking {
    if error == UniqueViolation && x.left > 1 then x.(left := x.left - 1, pc := Find) else x.(pc := GaveUp(error))
  }

  ghost function AtFind(cs: CustomerTable, x: Linking): Linking {
    var found := if x.claims.subject != "" then FindBySub(cs, x.claims.subject) else None;
    if found.None? then x.(pc := Insert)
    else if cs[found.value].email == x.claims.email || x.claims.email == "" then x.(pc := Returned(found.value))
    else x.(pc := Adopt(found.value))
  }

  function Apply(d: Directory, t: nat, x: Linking, r: Linked): Directory {
    match r
    case Row(cs, id) => Directory(cs, d.linkings[t := x.(pc := Returned(id))])
    case Refused(error) => d.(linkings := d.linkings[t := Retry(x, error)])
  }

  /** The statement a Link that has to write goes for. */
  ghost function Write(cs: CustomerTable, x: Linking, drawn: CustomerId): Linked
    requires x.pc.Adopt? || x.pc.Insert?
  {
    if x.pc.Adopt? then UpdateEmail(cs, x.pc.row, x.claims.email) else Upsert(cs, drawn, x.claims.email, SubOf(x.claims))
  }

  ghost function Next(d: Directory, l: LinkLabel): Directory {
    match l
    case Call(t, claims) =>
      if t in d.linkings then d else d.(linkings := d.linkings[t := Linking(claims, LINK_ATTEMPTS, Find)])
    case Step(t, drawn) =>
      if t !in d.linkings || drawn in d.customers then d
      else
        var x := d.linkings[t];
        match x.pc
        case Find => d.(linkings := d.linkings[t := AtFind(d.customers, x)])
        case Adopt(_) => Apply(d, t, x, Write(d.customers, x, drawn))
        case Insert => Apply(d, t, x, Write(d.customers, x, drawn))
        case _ => d
  }

  ghost function Execute(d: Directory, labels: seq<LinkLabel>): Directory {
    if labels == [] then d else Next(Execute(d, labels[..|labels|-1]), labels[|labels|-1])
  }

  // ---- What every statement keeps ---------------------------------------------------------

  /** Rows are never deleted and a recorded subject never changes or moves. */
  ghost predicate Binds(cs: CustomerTable, cs': CustomerTable) {
    forall i :: i in cs ==> i in cs' && (cs[i].sub.Some? ==> cs'[i].sub == cs[i].sub)
  }

  lemma UpdateEmailKeeps(cs: CustomerTable, id: CustomerId, email: string)
    requires Unique(cs) && UpdateEmail(cs, id, email).Row?
    ensures Unique(UpdateEmail(cs, id, email).customers) && Binds(cs, UpdateEmail(cs, id, email).customers)
  {
  }

  lemma UpsertKeeps(cs: CustomerTable, drawn: CustomerId, email: string, sub: Option<string>)
    requires Unique(cs) && drawn !in cs && Upsert(cs, drawn, email, sub).Row?
    ensures Unique(Upsert(cs, drawn, email, sub).customers) && Binds(cs, Upsert(cs, drawn, email, sub).customers)
  {
  }

  lemma NextKeeps(d: Directory, l: LinkLabel)
    requires Unique(d.customers)
    ensures Unique(Next(d, l).customers) && Binds(d.customers, Next(d, l).customers)
  {
    if l.Step? && l.t in d.linkings && l.drawn !in d.customers {
      var x := d.linkings[l.t];
      if x.pc.Adopt? && UpdateEmail(d.customers, x.pc.row, x.claims.email).Row? {
        UpdateEmailKeeps(d.customers, x.pc.row, x.claims.email);
      } else if x.pc.Insert? && Upsert(d.customers, l.drawn, x.claims.email, SubOf(x.claims)).Row? {
        UpsertKeeps(d.customers, l.drawn, x.claims.email, SubOf(x.claims));
      }
    }
  }

  /** Email and subject stay unique, and a subject once bound to a row never moves, in any interleaving. */
  lemma {:induction false} IdentityIsStable(d: Directory, labels: seq<LinkLabel>)
    requires Unique(d.customers)
    ensures Unique(Execute(d, labels).customers) && Binds(d.customers, Execute(d, labels).customers)
  {
    if labels != [] {
      IdentityIsStable(d, labels[..|labels|-1]);
      NextKeeps(Execute(d, labels[..|labels|-1]), labels[|labels|-1]);
    }
  }

  ghost predicate BoundTo(cs: CustomerTable, sub: string, id: CustomerId) {
    id in cs && cs[id].sub == Some(sub)
  }

  /** A Link that started when its subject was bound never even tries to insert. */
  predicate StaysOn(x: Linking, id: CustomerId) {
    x.pc == Find || x.pc == Adopt(id) || x.pc == Returned(id) || x.pc.GaveUp?
  }

  lemma StepStaysOn(d: Directory, l: LinkLabel, t: nat, sub: string, id: CustomerId)
    requires Unique(d.customers) && BoundTo(d.customers, sub, id) && sub != ""
    requires t in Next(d, l).linkings && Next(d, l).linkings[t].claims.subject == sub
    requires t in d.linkings ==> StaysOn(d.linkings[t], id)
    ensures StaysOn(Next(d, l).linkings[t], id)
  {
  }

  /** Every Link for a bound subject that starts later and succeeds returns the bound row, whatever else runs. */
  lemma {:induction false} LaterLinksAgree(d: Directory, labels: seq<LinkLabel>, t: nat, sub: string, id: CustomerId)
    requires Unique(d.customers) && BoundTo(d.customers, sub, id) && sub != ""
    requires t !in d.linkings && t in Execute(d, labels).linkings && Execute(d, labels).linkings[t].claims.subject == sub
    ensures StaysOn(Execute(d, labels).linkings[t], id)
  {
    assert labels != [];
    var before := labels[..|labels|-1];
    var mid := Execute(d, before);
    IdentityIsStable(d, before);
    if t in mid.linkings {
      ClaimsStay(mid, labels[|labels|-1], t);
      LaterLinksAgree(d, before, t, sub, id);
    }
    StepStaysOn(mid, labels[|labels|-1], t, sub, id);
  }

  lemma ClaimsStay(d: Directory, l: LinkLabel, t: nat)
    requires t in d.linkings
    ensures t in Next(d, l).linkings && Next(d, l).linkings[t].claims == d.linkings[t].claims
  {
  }

  // ---- When a Link gives up ---------------------------------------------------------------

  /** The subject's row exists and its new email belongs to another one. */
  ghost predicate EmailClash(cs: CustomerTable, claims: Claims) {
    var bound, holder := FindBySub(cs, claims.subject), FindByEmail(cs, claims.email);
    claims.subject != "" && bound.Some? && holder.Some? && bound.value != holder.value
  }

  /** An insert is lost at most once: from then on the subject is bound and every pass finds it. */
  ghost predicate PassOk(cs: CustomerTable, x: Linking) {
    1 <= x.left <= LINK_ATTEMPTS &&
    (x.left < LINK_ATTEMPTS ==> x.claims.subject != "" && FindBySub(cs, x.claims.subject).Some?) &&
    (x.pc.Insert? ==> x.left == LINK_ATTEMPTS) &&
    (x.pc.Adopt? ==> x.claims.subject != "" && BoundTo(cs, x.claims.subject, x.pc.row))
  }

  ghost predicate PassesOk(d: Directory) {
    forall t {:trigger d.linkings[t]} :: t in d.linkings ==> PassOk(d.customers, d.linkings[t])
  }

  lemma BoundStaysFound(cs: CustomerTable, cs': CustomerTable, sub: string)
    requires Binds(cs, cs') && FindBySub(cs, sub).Some?
    ensures FindBySub(cs', sub).Some?
  {
    assert cs'[FindBySub(cs, sub).value].sub == Some(sub);
  }

  lemma PassStays(cs: CustomerTable, cs': CustomerTable, x: Linking)
    requires PassOk(cs, x) && Binds(cs, cs')
    ensures PassOk(cs', x)
  {
    if FindBySub(cs, x.claims.subject).Some? {
      BoundStaysFound(cs, cs', x.claims.subject);
    }
  }

  lemma FindKeepsPass(cs: CustomerTable, x: Linking)
    requires PassOk(cs, x) && x.pc == Find
    ensures PassOk(cs, AtFind(cs, x)) && AtFind(cs, x).claims == x.claims && !AtFind(cs, x).pc.GaveUp?
  {
  }

  /** A refused email update means a clash; a refused insert means that somebody else bound the subject. */
  lemma RefusalKeepsPass(cs: CustomerTable, x: Linking, drawn: CustomerId)
    requires Unique(cs) && PassOk(cs, x) && (x.pc.Adopt? || x.pc.Insert?)
    requires var r := Write(cs, x, drawn); r.Refused?
    ensures var error := Write(cs, x, drawn).error;
      error == UniqueViolation && PassOk(cs, Retry(x, error)) && Retry(x, error).claims == x.claims &&
      (Retry(x, error).pc.GaveUp? ==> Retry(x, error).pc.error == error && EmailClash(cs, x.claims))
  {
  }

  /** One statement of one Link: it stays in order, and if this is where it gives up, the emails clash. */
  lemma StepKeepsPass(d: Directory, l: LinkLabel)
    requires Unique(d.customers) && l.Step? && l.t in d.linkings && PassOk(d.customers, d.linkings[l.t])
    ensures var x, x' := d.linkings[l.t], Next(d, l).linkings[l.t];
      PassOk(Next(d, l).customers, x') && x'.claims == x.claims &&
      (x'.pc.GaveUp? && !x.pc.GaveUp? ==> x'.pc.error == UniqueViolation && EmailClash(d.customers, x.claims))
  {
    hide Unique, Binds, EmailClash, UpdateEmail, Upsert, AtFind, Retry;
    var x := d.linkings[l.t];
    NextKeeps(d, l);
    PassStays(d.customers, Next(d, l).customers, x);
    if x.pc == Find {
      FindKeepsPass(d.customers, x);
    } else if (x.pc.Adopt? || x.pc.Insert?) && Write(d.customers, x, l.drawn).Refused? {
      RefusalKeepsPass(d.customers, x, l.drawn);
    }
  }

  lemma NextKeepsPasses(d: Directory, l: LinkLabel)
    requires Unique(d.customers) && PassesOk(d)
    ensures PassesOk(Next(d, l))
  {
    hide PassOk, Unique, Binds;
    NextKeeps(d, l);
    var d' := Next(d, l);
    forall t | t in d'.linkings
      ensures PassOk(d'.customers, d'.linkings[t])
    {
      if l.Step? && l.t == t {
        StepKeepsPass(d, l);
      } else if t in d.linkings {
        PassStays(d.customers, d'.customers, d.linkings[t]);
      } else {
        FreshPassOk(d', l);
      }
    }
  }

  lemma FreshPassOk(d: Directory, l: LinkLabel)
    requires l.Call?
    ensures PassOk(d.customers, Linking(l.claims, LINK_ATTEMPTS, Find))
  {
  }

  lemma {:induction false} RunKeepsPasses(d: Directory, labels: seq<LinkLabel>)
    requires Unique(d.customers) && d.linkings == map[]
    ensures PassesOk(Execute(d, labels))
  {
    if labels != [] {
      RunKeepsPasses(d, labels[..|labels|-1]);
      IdentityIsStable(d, labels[..|labels|-1]);
      NextKeepsPasses(Execute(d, labels[..|labels|-1]), labels[|labels|-1]);
    }
  }

  /** Step `k` of the run is one of Link `t`, which has not given up yet, and its emails clash at that moment. */
  ghost predicate ClashesAt(d: Directory, labels: seq<LinkLabel>, t: nat, k: nat, claims: Claims)
    requires k < |labels|
  {
    var mid := Execute(d, labels[..k]);
    labels[k].Step? && labels[k].t == t && t in mid.linkings && mid.linkings[t].claims == claims &&
    !mid.linkings[t].pc.GaveUp? && Next(mid, labels[k]).linkings[t].pc.GaveUp? && EmailClash(mid.customers, claims)
  }

  /**
   * A lost race is never surfaced: in any interleaving a Link gives up only over an email that, at the
   * very step at which it gave up, belonged to another row than the one its subject was bound to.
   */
  lemma {:induction false} OnlyEmailClashesSurface(d: Directory, labels: seq<LinkLabel>, t: nat)
    requires Unique(d.customers) && d.linkings == map[]
    requires t in Execute(d, labels).linkings && Execute(d, labels).linkings[t].pc.GaveUp?
    ensures var x := Execute(d, labels).linkings[t];
      x.pc.error == UniqueViolation && exists k :: 0 <= k < |labels| && ClashesAt(d, labels, t, k, x.claims)
  {
    hide EmailClash, Unique, Binds;
    var before, last := labels[..|labels|-1], labels[|labels|-1];
    var mid := Execute(d, before);
    IdentityIsStable(d, before);
    RunKeepsPasses(d, before);
    if t in mid.linkings && mid.linkings[t].pc.GaveUp? {
      OnlyEmailClashesSurface(d, before, t);
      var k :| 0 <= k < |before| && ClashesAt(d, before, t, k, mid.linkings[t].claims);
      ClashesAtLonger(d, labels, t, k, mid.linkings[t].claims);
      GivenUpRests(mid, last, t);
    } else {
      assert last.Step? && last.t == t && t in mid.linkings;
      StepKeepsPass(mid, last);
      assert ClashesAt(d, labels, t, |before|, mid.linkings[t].claims);
    }
  }

  lemma ClashesAtLonger(d: Directory, labels: seq<LinkLabel>, t: nat, k: nat, claims: Claims)
    requires k < |labels| - 1 && ClashesAt(d, labels[..|labels|-1], t, k, claims)
    ensures ClashesAt(d, labels, t, k, claims)
  {
    hide Next, EmailClash;
    assert labels[..|labels|-1][..k] == labels[..k];
  }

  lemma GivenUpRests(d: Directory, l: LinkLabel, t: nat)
    requires t in d.linkings && d.linkings[t].pc.GaveUp?
    ensures t in Next(d, l).linkings && Next(d, l).linkings[t] == d.linkings[t]
  {
  }

  // ---- When a memoised id stays right -----------------------------------------------------

  /** Whatever happens next, no Link for the subject that starts from here on returns another id. */
  ghost predicate NeverContradicted(d: Directory, sub: string, id: CustomerId) {
    forall labels, t ::
      t !in d.linkings && t in Execute(d, labels).linkings && Execute(d, labels).linkings[t].claims.subject == sub &&
      Execute(d, labels).linkings[t].pc.Returned?
      ==> Execute(d, labels).linkings[t].pc.id == id
  }

  lemma FreshEmail(cs: CustomerTable) returns (email: string)
    ensures email != "" && FindByEmail(cs, email) == None
  {
    var used := set i | i in cs :: cs[i].email;
    email := FreshString(used);
    forall i | i in cs
      ensures cs[i].email != email
    {
      assert cs[i].email in used;
    }
  }

  lemma FreshId(ids: set<CustomerId>) returns (id: CustomerId)
    ensures id !in ids
  {
    id := UpperBound(ids);
    id := id + 1;
  }

  lemma {:induction false} UpperBound(ids: set<nat>) returns (bound: nat)
    ensures forall i :: i in ids ==> i <= bound
  {
    if ids == {} {
      bound := 0;
    } else {
      var i :| i in ids;
      var rest := UpperBound(ids - {i});
      bound := rest + i;
      assert forall j :: j in ids ==> j == i || j in ids - {i};
    }
  }

  /** A call running alone finds the row its subject is bound to. */
  lemma LoneFind(d: Directory, t: nat, sub: string, id: CustomerId, drawn: CustomerId)
    requires Unique(d.customers) && BoundTo(d.customers, sub, id) && sub != "" && t !in d.linkings && drawn !in d.customers
    ensures var x := Execute(d, [Call(t, Claims(sub, "")), Step(t, drawn)]).linkings;
      t in x && x[t].claims.subject == sub && x[t].pc == Returned(id)
  {
    var labels := [Call(t, Claims(sub, "")), Step(t, drawn)];
    assert labels[..1][..0] == [] && labels[..1][0] == labels[0];
    assert Execute(d, labels[..1]) == Next(d, labels[0]);
    assert FindBySub(d.customers, sub) == Some(id);
  }

  /** A call running alone for an unbound subject and an unused email creates a new row. */
  lemma LoneInsert(d: Directory, t: nat, claims: Claims, drawn: CustomerId)
    requires claims.subject != "" && FindBySub(d.customers, claims.subject) == None && FindByEmail(d.customers, claims.email) == None
    requires t !in d.linkings && drawn !in d.customers
    ensures var x := Execute(d, [Call(t, claims), Step(t, drawn), Step(t, drawn)]).linkings;
      t in x && x[t].claims == claims && x[t].pc == Returned(drawn)
  {
    var labels := [Call(t, claims), Step(t, drawn), Step(t, drawn)];
    assert labels[..2] == [Call(t, claims), Step(t, drawn)];
    assert labels[..2][..1] == [Call(t, claims)] && [Call(t, claims)][..0] == [];
    assert Execute(d, [Call(t, claims)]) == Next(d, Call(t, claims));
    assert Execute(d, labels[..2]) == Next(Next(d, labels[0]), labels[1]);
  }

  /**
   * An id memoised for a subject can never be contradicted exactly when the row is bound to that
   * subject. Link also returns rows bound to another subject, when two subjects share an email: an
   * entry made from such an answer is contradicted as soon as the caller arrives with a new email.
   */
  lemma CacheEntryIsSoundIff(d: Directory, sub: string, id: CustomerId)
    requires Unique(d.customers) && sub != ""
    ensures NeverContradicted(d, sub, id) <==> BoundTo(d.customers, sub, id)
  {
    if BoundTo(d.customers, sub, id) {
      forall labels, t |
        t !in d.linkings && t in Execute(d, labels).linkings && Execute(d, labels).linkings[t].claims.subject == sub &&
        Execute(d, labels).linkings[t].pc.Returned?
        ensures Execute(d, labels).linkings[t].pc.id == id
      {
        LaterLinksAgree(d, labels, t, sub, id);
      }
    } else {
      var t := UpperBound(d.linkings.Keys);
      t := t + 1;
      var drawn := FreshId(d.customers.Keys + {id});
      var bound := FindBySub(d.customers, sub);
      if bound.Some? {
        LoneFind(d, t, sub, bound.value, drawn);
        var labels := [Call(t, Claims(sub, "")), Step(t, drawn)];
        assert Execute(d, labels).linkings[t].pc.id != id;
      } else {
        var email := FreshEmail(d.customers);
        LoneInsert(d, t, Claims(sub, email), drawn);
        var labels := [Call(t, Claims(sub, email)), Step(t, drawn), Step(t, drawn)];
        assert Execute(d, labels).linkings[t].pc.id != id;
      }
    }
  }

  /** Two subjects with one email: the second is handed the first one's row, which no memo may keep. */
  lemma SharedEmailIsNotMemoisable(d: Directory, claims: Claims, id: CustomerId, drawn: CustomerId)
    requires Unique(d.customers) && claims.subject != "" && FindBySub(d.customers, claims.subject) == None
    requires FindByEmail(d.customers, claims.email) == Some(id) && d.customers[id].sub.Some?
    ensures LinkAlone(d.customers, drawn, claims) == Row(d.customers, id)
    ensures !NeverContradicted(d, claims.subject, id)
  {
    CacheEntryIsSoundIff(d, claims.subject, id);
  }
}
