/**
 * The object permissions of a catalogue component. When a component is
 * saved, its status decides which principals (the owner, the `staff` and
 * `users` groups, and the anonymous user) get the add, view, change and
 * delete permission on it; when the component has just been created, all
 * sixteen (permission, principal) pairs are first revoked.
 */
module Permissions {
  import opened Wrappers
  import ComponentModel

  /** A user or a group, known only by its identity. */
  datatype Principal = Principal(id: nat)

  /** The four principals the permissions are handed to. */
  datatype Assignees = Assignees(owner: Principal, staff: Principal, users: Principal, anon: Principal)

  /** The four principals are four different ones. */
  predicate Distinct(who: Assignees) {
    who.owner != who.staff && who.owner != who.users && who.owner != who.anon
    && who.staff != who.users && who.staff != who.anon && who.users != who.anon
  }

  /** `[owner, staff, users, anon]`: the order in which the revoke loop visits them. */
  function Order(who: Assignees): (r: seq<Principal>)
    ensures |r| == 4
    ensures forall p :: p in r <==> p == who.owner || p == who.staff || p == who.users || p == who.anon
  {
    [who.owner, who.staff, who.users, who.anon]
  }

  // ---------------------------------------------------------------------
  // Permission names
  // ---------------------------------------------------------------------

  /** The four model permissions. */
  datatype Perm = Add | View | Change | Delete

  /** Python's `str.lower` on the ASCII letters of a class name. */
  function Lower(s: string): (r: string)
    ensures |r| == |s|
    ensures forall i | 0 <= i < |s| :: r[i] == if 'A' <= s[i] <= 'Z' then (s[i] as int + 32) as char else s[i]
  {
    if |s| == 0 then []
    else [if 'A' <= s[0] <= 'Z' then (s[0] as int + 32) as char else s[0]] + Lower(s[1..])
  }

  /** The prefix of a permission's codename. */
  function Prefix(p: Perm): string {
    match p
    case Add => "add_"
    case View => "view_"
    case Change => "change_"
    case Delete => "delete_"
  }

  /** `f"{p}_{model.__name__.lower()}"`: the codename of permission `p` on a model. */
  function Codename(p: Perm, model: string): (r: string)
    ensures r == Prefix(p) + Lower(model)
    ensures |r| > |Lower(model)|
  {
    Prefix(p) + Lower(model)
  }

  /** The four codenames of a model are four different names. */
  lemma CodenamesDistinct(p: Perm, q: Perm, model: string)
    ensures Codename(p, model) == Codename(q, model) <==> p == q
  {
    if p != q {
      assert Codename(p, model)[0] == Prefix(p)[0];
      assert Codename(q, model)[0] == Prefix(q)[0];
    }
  }

  /** The codename names the model whatever the case of its class name. */
  lemma CodenameIgnoresCase(p: Perm)
    ensures Codename(p, "Bike") == Codename(p, "BIKE") == Prefix(p) + "bike"
  {
    assert Lower("Bike") == "bike";
    assert Lower("BIKE") == "bike";
  }

  /** The keys of `permissions_map`, in the order they are written. */
  function PermKeys(model: string): (r: seq<string>)
    ensures |r| == 4
  {
    [Codename(Add, model), Codename(View, model), Codename(Change, model), Codename(Delete, model)]
  }

  // ---------------------------------------------------------------------
  // The status table
  // ---------------------------------------------------------------------

  /** The four grant lists of a status. */
  datatype Lists = Lists(add: seq<Principal>, view: seq<Principal>, change: seq<Principal>, delete: seq<Principal>)

  /** The list of permission `p`. */
  function ListOf(l: Lists, p: Perm): seq<Principal> {
    match p
    case Add => l.add
    case View => l.view
    case Change => l.change
    case Delete => l.delete
  }

  /** The `match status` of `get_permissions_map`: a status that matches no case keeps the four empty lists. */
  function StatusTable(status: Option<string>, who: Assignees): (r: Lists)
    ensures forall p: Perm, a | a in ListOf(r, p) :: a in Order(who)
    ensures forall p: Perm :: |ListOf(r, p)| <= 3
  {
    var s := if status.Some? then ComponentModel.ParseStatus(status.value) else None;
    match s
    case Some(Private) =>
      Lists([who.owner], [who.owner], [who.owner], [who.owner])
    case Some(Public) =>
      Lists([who.owner], [who.anon, who.users, who.staff], [who.owner], [who.owner])
    case Some(AwaitingApproval) =>
      Lists([who.staff], [who.owner, who.staff], [who.staff], [who.staff, who.owner])
    case Some(Rejected) =>
      Lists([who.staff], [who.owner, who.staff], [who.staff], [who.staff, who.owner])
    case Some(Published) =>
      Lists([who.staff], [who.anon, who.users, who.staff], [who.staff], [who.staff])
    case None =>
      Lists([], [], [], [])
  }

  /** `get_permissions_map`'s result: each codename of the model with its grant list. */
  function PermissionsMap(model: string, status: Option<string>, who: Assignees): (m: map<string, seq<Principal>>)
    ensures m.Keys == {Codename(Add, model), Codename(View, model), Codename(Change, model), Codename(Delete, model)}
    ensures forall p: Perm :: Codename(p, model) in m
  {
    var l := StatusTable(status, who);
    map[Codename(Add, model) := l.add, Codename(View, model) := l.view,
        Codename(Change, model) := l.change, Codename(Delete, model) := l.delete]
  }

  /** The map always has exactly four keys. */
  lemma PermissionsMapSize(model: string, status: Option<string>, who: Assignees)
    ensures |PermissionsMap(model, status, who).Keys| == 4
  {
    var a, v, c, d := Codename(Add, model), Codename(View, model), Codename(Change, model), Codename(Delete, model);
    CodenamesDistinct(Add, View, model);
    CodenamesDistinct(Add, Change, model);
    CodenamesDistinct(Add, Delete, model);
    CodenamesDistinct(View, Change, model);
    CodenamesDistinct(View, Delete, model);
    CodenamesDistinct(Change, Delete, model);
    var s1 := {a};
    var s2 := s1 + {v};
    var s3 := s2 + {c};
    var s4 := s3 + {d};
    assert |s2| == 2 by { assert v !in s1; }
    assert |s3| == 3 by { assert c !in s2; }
    assert |s4| == 4 by { assert d !in s3; }
    assert PermissionsMap(model, status, who).Keys == s4;
  }

  /** The key of permission `p` holds the list of `p`. */
  lemma PermissionsMapLists(model: string, status: Option<string>, who: Assignees, p: Perm)
    ensures PermissionsMap(model, status, who)[Codename(p, model)] == ListOf(StatusTable(status, who), p)
  {
    CodenamesDistinct(Add, View, model);
    CodenamesDistinct(Add, Change, model);
    CodenamesDistinct(Add, Delete, model);
    CodenamesDistinct(View, Change, model);
    CodenamesDistinct(View, Delete, model);
    CodenamesDistinct(Change, Delete, model);
  }

  /** The status as the serializer compares it: the stored value of `s`. */
  function StatusValue(s: ComponentModel.Status): Option<string> {
    Some(ComponentModel.Value(s))
  }

  /** Fail closed: a status that is absent or not one of the five grants nothing. */
  lemma UnknownStatusGrantsNothing(status: Option<string>, who: Assignees)
    requires forall s: ComponentModel.Status :: status != StatusValue(s)
    ensures StatusTable(status, who) == Lists([], [], [], [])
  {
    if status.Some? {
      var r := ComponentModel.ParseStatus(status.value);
      assert r.Some? ==> status == StatusValue(r.value);
    }
  }

  /** A private component: the owner, and only the owner, holds every permission. */
  lemma PrivateTable(who: Assignees)
    ensures var l := StatusTable(StatusValue(ComponentModel.Private), who);
      l.add == l.view == l.change == l.delete == [who.owner]
  {
    ComponentModel.ParseValue(ComponentModel.Private);
  }

  /** A public component: everyone but the owner may view it, the owner alone may do the rest. */
  lemma PublicTable(who: Assignees)
    requires Distinct(who)
    ensures var l := StatusTable(StatusValue(ComponentModel.Public), who);
      l.view == [who.anon, who.users, who.staff] && who.owner !in l.view
      && l.add == l.change == l.delete == [who.owner]
  {
    ComponentModel.ParseValue(ComponentModel.Public);
  }

  /** A component awaiting approval and a rejected one have the same map. */
  lemma AwaitingSameAsRejected(model: string, who: Assignees)
    ensures PermissionsMap(model, StatusValue(ComponentModel.AwaitingApproval), who)
         == PermissionsMap(model, StatusValue(ComponentModel.Rejected), who)
    ensures var l := StatusTable(StatusValue(ComponentModel.Rejected), who);
      l.add == [who.staff] && l.view == [who.owner, who.staff]
      && l.change == [who.staff] && l.delete == [who.staff, who.owner]
  {
    ComponentModel.ParseValue(ComponentModel.AwaitingApproval);
    ComponentModel.ParseValue(ComponentModel.Rejected);
  }

  /** A published component: everyone but the owner may view it, staff alone may do the rest. */
  lemma PublishedTable(who: Assignees)
    requires Distinct(who)
    ensures var l := StatusTable(StatusValue(ComponentModel.Published), who);
      l.view == [who.anon, who.users, who.staff] && who.owner !in l.view
      && l.add == l.change == l.delete == [who.staff]
  {
    ComponentModel.ParseValue(ComponentModel.Published);
  }

  /** Every one of the five statuses lets somebody view the component. */
  lemma EveryStatusViewable(s: ComponentModel.Status, who: Assignees)
    ensures |StatusTable(StatusValue(s), who).view| >= 1
  {
    ComponentModel.ParseValue(s);
  }

  /** The published statuses: the two under which the public may see a component. */
  predicate Visible(s: ComponentModel.Status) {
    s == ComponentModel.Public || s == ComponentModel.Published
  }

  /**
   * The anonymous user and the `users` group only ever get the view
   * permission, and only on a public or published component.
   */
  lemma PublicOnlyViews(status: Option<string>, who: Assignees, p: Perm)
    requires Distinct(who)
    ensures var l := ListOf(StatusTable(status, who), p);
      (who.anon in l <==> p == View && exists s :: Visible(s) && status == StatusValue(s))
      && (who.users in l <==> p == View && exists s :: Visible(s) && status == StatusValue(s))
  {
    ComponentModel.ParseValue(ComponentModel.Public);
    ComponentModel.ParseValue(ComponentModel.Published);
    var l := ListOf(StatusTable(status, who), p);
    if exists s :: Visible(s) && status == StatusValue(s) {
      var s :| Visible(s) && status == StatusValue(s);
      ComponentModel.ParseValue(s);
    } else if status.Some? {
      var r := ComponentModel.ParseStatus(status.value);
      if r.Some? {
        assert status == StatusValue(r.value);
      }
    }
  }

  /** Staff may change or delete a component exactly when it has left the owner's hands. */
  lemma StaffModerates(s: ComponentModel.Status, who: Assignees, p: Perm)
    requires Distinct(who) && p != View
    ensures who.staff in ListOf(StatusTable(StatusValue(s), who), p) <==>
      s == ComponentModel.AwaitingApproval || s == ComponentModel.Rejected || s == ComponentModel.Published
  {
    ComponentModel.ParseValue(s);
  }

  // ---------------------------------------------------------------------
  // The permission store
  // ---------------------------------------------------------------------

  /** One object permission: a codename, who holds it, and the object it is on. */
  datatype Grant = Grant(perm: string, holder: Principal, obj: nat)

  /** The `perm_i`-major list of (permission, principal) pairs of the revoke loop. */
  function Row(perm: string, who: seq<Principal>): (r: seq<(string, Principal)>)
    ensures |r| == |who|
    ensures forall i | 0 <= i < |who| :: r[i] == (perm, who[i])
  {
    if |who| == 0 then [] else Row(perm, who[..|who| - 1]) + [(perm, who[|who| - 1])]
  }

  /** Every permission of `perms`, each with every principal of `who`. */
  function Pairs(perms: seq<string>, who: seq<Principal>): (r: seq<(string, Principal)>)
    ensures |r| == |perms| * |who|
  {
    if |perms| == 0 then [] else Pairs(perms[..|perms| - 1], who) + Row(perms[|perms| - 1], who)
  }

  /** Taking one more permission adds its row at the end. */
  lemma PairsSnoc(perms: seq<string>, who: seq<Principal>, i: nat)
    requires i < |perms|
    ensures Pairs(perms[..i + 1], who) == Pairs(perms[..i], who) + Row(perms[i], who)
  {
    assert perms[..i + 1][..i] == perms[..i];
  }

  /** The sixteen `remove_perm` calls of a newly created component, in the order they are made. */
  function RevokeSchedule(model: string, who: Assignees): (r: seq<(string, Principal)>)
    ensures |r| == 16
  {
    Pairs(PermKeys(model), Order(who))
  }

  /** How often `x` occurs in `s`. */
  function Count<T(==)>(s: seq<T>, x: T): nat {
    if |s| == 0 then 0 else Count(s[..|s| - 1], x) + (if s[|s| - 1] == x then 1 else 0)
  }

  lemma {:induction false} CountConcat<T>(a: seq<T>, b: seq<T>, x: T)
    ensures Count(a + b, x) == Count(a, x) + Count(b, x)
    decreases |b|
  {
    if |b| == 0 {
      assert a + b == a;
    } else {
      assert (a + b)[..|a + b| - 1] == a + b[..|b| - 1];
      CountConcat(a, b[..|b| - 1], x);
    }
  }

  /** A row holds each pair of its permission once, provided the principals are all different. */
  lemma {:induction false} CountRow(perm: string, who: seq<Principal>, q: string, a: Principal)
    requires forall i, j | 0 <= i < j < |who| :: who[i] != who[j]
    ensures Count(Row(perm, who), (q, a)) == if q == perm && a in who then 1 else 0
    decreases |who|
  {
    if |who| > 0 {
      var init := who[..|who| - 1];
      CountRow(perm, init, q, a);
      assert Row(perm, who)[..|who| - 1] == Row(perm, init);
      assert a in who <==> a in init || a == who[|who| - 1];
      if a == who[|who| - 1] {
        assert a !in init;
      }
    }
  }

  /** Every pair of permission and principal is visited once, when both lists are free of repeats. */
  lemma {:induction false} CountPairs(perms: seq<string>, who: seq<Principal>, q: string, a: Principal)
    requires forall i, j | 0 <= i < j < |perms| :: perms[i] != perms[j]
    requires forall i, j | 0 <= i < j < |who| :: who[i] != who[j]
    ensures Count(Pairs(perms, who), (q, a)) == if q in perms && a in who then 1 else 0
    decreases |perms|
  {
    if |perms| > 0 {
      var init := perms[..|perms| - 1];
      var last := perms[|perms| - 1];
      CountPairs(init, who, q, a);
      CountRow(last, who, q, a);
      CountConcat(Pairs(init, who), Row(last, who), (q, a));
      assert q in perms <==> q in init || q == last;
      if q == last {
        assert q !in init;
      }
    }
  }

  /** Given four different principals, the revoke loop removes each of the sixteen pairs exactly once. */
  lemma RevokeOnce(model: string, who: Assignees, p: Perm, a: Principal)
    requires Distinct(who)
    ensures Count(RevokeSchedule(model, who), (Codename(p, model), a)) ==
      if a == who.owner || a == who.staff || a == who.users || a == who.anon then 1 else 0
  {
    var ks := PermKeys(model);
    forall i, j | 0 <= i < j < |ks| ensures ks[i] != ks[j] {
      CodenamesDistinct(Add, View, model);
      CodenamesDistinct(Add, Change, model);
      CodenamesDistinct(Add, Delete, model);
      CodenamesDistinct(View, Change, model);
      CodenamesDistinct(View, Delete, model);
      CodenamesDistinct(Change, Delete, model);
    }
    assert Codename(p, model) in ks;
    CountPairs(ks, Order(who), Codename(p, model), a);
  }

  /** The grants `pairs` names on object `obj`. */
  function OnObject(pairs: seq<(string, Principal)>, obj: nat): set<Grant> {
    set x | x in pairs :: Grant(x.0, x.1, obj)
  }

  lemma OnObjectSnoc(pairs: seq<(string, Principal)>, x: (string, Principal), obj: nat)
    ensures OnObject(pairs + [x], obj) == OnObject(pairs, obj) + {Grant(x.0, x.1, obj)}
  {
    var l := OnObject(pairs + [x], obj);
    var r := OnObject(pairs, obj) + {Grant(x.0, x.1, obj)};
    forall g | g in l ensures g in r {
      var y :| y in pairs + [x] && g == Grant(y.0, y.1, obj);
      if y != x {
        assert y in pairs;
      }
    }
    forall g | g in r ensures g in l {
      if g != Grant(x.0, x.1, obj) {
        var y :| y in pairs && g == Grant(y.0, y.1, obj);
        assert y in pairs + [x];
      } else {
        assert x in pairs + [x];
      }
    }
  }

  lemma OnObjectConcat(a: seq<(string, Principal)>, b: seq<(string, Principal)>, obj: nat)
    ensures OnObject(a + b, obj) == OnObject(a, obj) + OnObject(b, obj)
  {
    var l := OnObject(a + b, obj);
    var r := OnObject(a, obj) + OnObject(b, obj);
    forall g | g in l ensures g in r {
      var y :| y in a + b && g == Grant(y.0, y.1, obj);
      if y in a {
        assert g in OnObject(a, obj);
      } else {
        assert g in OnObject(b, obj);
      }
    }
    forall g | g in r ensures g in l {
      if g in OnObject(a, obj) {
        var y :| y in a && g == Grant(y.0, y.1, obj);
        assert y in a + b;
      } else {
        var y :| y in b && g == Grant(y.0, y.1, obj);
        assert y in a + b;
      }
    }
  }

  /** The grants `m` hands out on object `obj`: each principal of each key's list gets that key. */
  function Granted(m: map<string, seq<Principal>>, obj: nat): (r: set<Grant>)
    ensures forall g | g in r :: g.obj == obj && g.perm in m && g.holder in m[g.perm]
  {
    set perm, holder | perm in m && holder in m[perm] :: Grant(perm, holder, obj)
  }

  /**
   * The object permissions held, and the `remove_perm` calls made so far.
   * The store stands for the permission tables the framework keeps.
   */
  class GuardianStore {
    var grants: set<Grant>
    var removed: seq<(string, Principal)>

    constructor(grants: set<Grant>)
      ensures this.grants == grants && removed == []
    {
      this.grants := grants;
      removed := [];
    }

    /** `remove_perm(perm, holder, obj)`. */
    method RemovePerm(perm: string, holder: Principal, obj: nat)
      modifies this
      ensures grants == old(grants) - {Grant(perm, holder, obj)}
      ensures removed == old(removed) + [(perm, holder)]
    {
      grants := grants - {Grant(perm, holder, obj)};
      removed := removed + [(perm, holder)];
    }

    /** The inner loop: `perm` revoked from each of `assignees`, in order. */
    method RevokeFrom(perm: string, assignees: seq<Principal>, obj: nat)
      modifies this
      ensures removed == old(removed) + Row(perm, assignees)
      ensures grants == old(grants) - OnObject(Row(perm, assignees), obj)
    {
      var j := 0;
      while j < |assignees|
        invariant 0 <= j <= |assignees|
        invariant removed == old(removed) + Row(perm, assignees[..j])
        invariant grants == old(grants) - OnObject(Row(perm, assignees[..j]), obj)
      {
        RemovePerm(perm, assignees[j], obj);
        assert assignees[..j + 1][..j] == assignees[..j];
        OnObjectSnoc(Row(perm, assignees[..j]), (perm, assignees[j]), obj);
        j := j + 1;
      }
      assert assignees[..j] == assignees;
    }

    /** The outer loop: each of `keys` in turn revoked from all of `assignees`. */
    method RevokeAll(keys: seq<string>, assignees: seq<Principal>, obj: nat)
      modifies this
      ensures removed == old(removed) + Pairs(keys, assignees)
      ensures grants == old(grants) - OnObject(Pairs(keys, assignees), obj)
    {
      var i := 0;
      while i < |keys|
        invariant 0 <= i <= |keys|
        invariant removed == old(removed) + Pairs(keys[..i], assignees)
        invariant grants == old(grants) - OnObject(Pairs(keys[..i], assignees), obj)
      {
        RevokeFrom(keys[i], assignees, obj);
        PairsSnoc(keys, assignees, i);
        OnObjectConcat(Pairs(keys[..i], assignees), Row(keys[i], assignees), obj);
        i := i + 1;
      }
      assert keys[..i] == keys;
    }

    /**
     * `get_permissions_map(created)` on object `obj` of `model`: on
     * creation, each key of the map is revoked from each of the four
     * principals, key by key; either way the map of the status is returned.
     */
    method GetPermissionsMap(model: string, status: Option<string>, who: Assignees, obj: nat, created: bool)
      returns (m: map<string, seq<Principal>>)
      modifies this
      ensures m == PermissionsMap(model, status, who)
      ensures created ==> removed == old(removed) + RevokeSchedule(model, who)
      ensures created ==> grants == old(grants) - OnObject(RevokeSchedule(model, who), obj)
      ensures !created ==> removed == old(removed) && grants == old(grants)
    {
      if created {
        RevokeAll(PermKeys(model), Order(who), obj);
      }
      m := PermissionsMap(model, status, who);
    }

    /**
     * Saving a component as the code does it: the map is computed (revoking
     * on creation only) and its grants are added to those already held.
     */
    method Save(model: string, status: Option<string>, who: Assignees, obj: nat, created: bool)
      modifies this
      ensures grants == SaveAsWritten(old(grants), model, status, who, obj, created)
      ensures created ==> removed == old(removed) + RevokeSchedule(model, who)
      ensures !created ==> removed == old(removed)
    {
      var m := GetPermissionsMap(model, status, who, obj, created);
      grants := grants + Granted(m, obj);
    }

    /** Saving a component with the old grants always cleared first. */
    method SaveCorrected(model: string, status: Option<string>, who: Assignees, obj: nat)
      modifies this
      ensures grants == SaveCleared(old(grants), model, status, who, obj)
      ensures removed == old(removed) + RevokeSchedule(model, who)
    {
      var m := GetPermissionsMap(model, status, who, obj, true);
      grants := grants + Granted(m, obj);
    }
  }

  /** The grants after a save as written: revoked on creation, then the status map added. */
  function SaveAsWritten(grants: set<Grant>, model: string, status: Option<string>, who: Assignees,
                         obj: nat, created: bool): (r: set<Grant>)
    ensures forall g: Grant | g.obj != obj :: g in r <==> g in grants
    ensures forall p: Perm, a | a in ListOf(StatusTable(status, who), p) :: Grant(Codename(p, model), a, obj) in r
  {
    PermissionsMapGranted(model, status, who, obj);
    (if created then grants - OnObject(RevokeSchedule(model, who), obj) else grants)
    + Granted(PermissionsMap(model, status, who), obj)
  }

  /** The grants after a save that clears the sixteen pairs every time. */
  function SaveCleared(grants: set<Grant>, model: string, status: Option<string>, who: Assignees,
                       obj: nat): (r: set<Grant>)
    ensures forall g: Grant | g.obj != obj :: g in r <==> g in grants
    ensures forall p: Perm, a | a in ListOf(StatusTable(status, who), p) :: Grant(Codename(p, model), a, obj) in r
  {
    PermissionsMapGranted(model, status, who, obj);
    (grants - OnObject(RevokeSchedule(model, who), obj)) + Granted(PermissionsMap(model, status, who), obj)
  }

  /** The map hands every principal of a status list its permission on the object. */
  lemma PermissionsMapGranted(model: string, status: Option<string>, who: Assignees, obj: nat)
    ensures forall p: Perm, a | a in ListOf(StatusTable(status, who), p) ::
      Grant(Codename(p, model), a, obj) in Granted(PermissionsMap(model, status, who), obj)
  {
    var m := PermissionsMap(model, status, who);
    forall p: Perm, a | a in ListOf(StatusTable(status, who), p)
      ensures Grant(Codename(p, model), a, obj) in Granted(m, obj)
    {
      PermissionsMapLists(model, status, who, p);
    }
  }

  /** Saving again with the same status, as an update, adds nothing to what a save gave. */
  lemma SaveAsWrittenIdempotent(g: set<Grant>, model: string, status: Option<string>, who: Assignees,
                                obj: nat, created: bool)
    ensures var once := SaveAsWritten(g, model, status, who, obj, created);
      SaveAsWritten(once, model, status, who, obj, false) == once
  {
  }

  /** A clearing save repeated with the same status gives the grants of one save. */
  lemma SaveClearedIdempotent(g: set<Grant>, model: string, status: Option<string>, who: Assignees, obj: nat)
    ensures var once := SaveCleared(g, model, status, who, obj);
      SaveCleared(once, model, status, who, obj) == once
  {
  }

  /** Every permission of `perms` is paired with every principal of `who`. */
  lemma {:induction false} InPairs(perms: seq<string>, who: seq<Principal>, q: string, a: Principal)
    requires q in perms && a in who
    ensures (q, a) in Pairs(perms, who)
    decreases |perms|
  {
    var init := perms[..|perms| - 1];
    var last := perms[|perms| - 1];
    if q == last {
      var i :| 0 <= i < |who| && who[i] == a;
      assert Row(last, who)[i] == (q, a);
    } else {
      assert q in init by {
        var k :| 0 <= k < |perms| && perms[k] == q;
        assert init[k] == q;
      }
      InPairs(init, who, q, a);
    }
  }

  /** Pair `(perm, a)` is among the sixteen revoked ones when `perm` is a key and `a` one of the four. */
  lemma InSchedule(model: string, who: Assignees, p: Perm, a: Principal)
    requires a in Order(who)
    ensures (Codename(p, model), a) in RevokeSchedule(model, who)
  {
    assert Codename(p, model) in PermKeys(model);
    InPairs(PermKeys(model), Order(who), Codename(p, model), a);
  }

  /**
   * With the grants cleared on every save, what the four principals hold on
   * the object depends on the status alone, not on what they held before.
   */
  lemma SaveClearedFollowsStatus(grants: set<Grant>, model: string, status: Option<string>, who: Assignees,
                                 obj: nat, p: Perm, a: Principal)
    requires a in Order(who)
    ensures Grant(Codename(p, model), a, obj) in SaveCleared(grants, model, status, who, obj)
      <==> a in ListOf(StatusTable(status, who), p)
  {
    InSchedule(model, who, p, a);
    assert Grant(Codename(p, model), a, obj) in OnObject(RevokeSchedule(model, who), obj);
    PermissionsMapLists(model, status, who, p);
    var m := PermissionsMap(model, status, who);
    if a in ListOf(StatusTable(status, who), p) {
      assert Grant(Codename(p, model), a, obj) in Granted(m, obj);
    }
  }

  /**
   * As written, the grants are cleared only when the component is created,
   * when it holds none yet: a component created private, updated to public
   * and then updated back to private stays visible to the anonymous user.
   */
  lemma StaleGrantSurvivesUpdate()
    ensures var who := Assignees(Principal(1), Principal(2), Principal(3), Principal(4));
      var afterCreate := SaveAsWritten({}, "Bike", StatusValue(ComponentModel.Private), who, 7, true);
      var afterPublic := SaveAsWritten(afterCreate, "Bike", StatusValue(ComponentModel.Public), who, 7, false);
      var afterUpdate := SaveAsWritten(afterPublic, "Bike", StatusValue(ComponentModel.Private), who, 7, false);
      who.anon !in ListOf(StatusTable(StatusValue(ComponentModel.Private), who), View)
      && Grant(Codename(View, "Bike"), who.anon, 7) in afterUpdate
  {
    var who := Assignees(Principal(1), Principal(2), Principal(3), Principal(4));
    ComponentModel.ParseValue(ComponentModel.Public);
    ComponentModel.ParseValue(ComponentModel.Private);
    PermissionsMapLists("Bike", StatusValue(ComponentModel.Public), who, View);
    var m := PermissionsMap("Bike", StatusValue(ComponentModel.Public), who);
    assert who.anon in m[Codename(View, "Bike")];
    assert Grant(Codename(View, "Bike"), who.anon, 7) in Granted(m, 7);
  }

  /**
   * As written, a component created without a status in the request is
   * stored with the default status, private, but the map is built from the
   * absent status and grants nothing: not even the owner, who holds every
   * permission of a private component, gets any.
   */
  lemma MissingStatusLocksOutOwner(model: string, who: Assignees, obj: nat)
    ensures SaveAsWritten({}, model, None, who, obj, true) == {}
    ensures ComponentModel.NewComponent(None, "", "", None, None, None).status == ComponentModel.Private
    ensures who.owner in StatusTable(StatusValue(ComponentModel.Private), who).view
  {
    ComponentModel.ParseValue(ComponentModel.Private);
    var m := PermissionsMap(model, None, who);
    forall perm | perm in m ensures m[perm] == [] {
    }
  }

  /**
   * Built from the status the component is stored with, and cleared first, a
   * save of a component created without a status leaves the owner every
   * permission, as the private table says.
   */
  lemma StoredStatusGrantsOwner(grants: set<Grant>, model: string, who: Assignees, obj: nat, p: Perm,
                                brand: Option<nat>, name: string, size: string, gtin: Option<int>, mpn: Option<string>)
    ensures var c := ComponentModel.NewComponent(brand, name, size, gtin, mpn, None);
      Grant(Codename(p, model), who.owner, obj) in SaveCleared(grants, model, StatusValue(c.status), who, obj)
  {
    PrivateTable(who);
    SaveClearedFollowsStatus(grants, model, StatusValue(ComponentModel.Private), who, obj, p, who.owner);
  }
}
