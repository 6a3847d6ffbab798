/** Scope lists: merging in canonical order, what needs consent, what a grant and a token permit. */
module OAuthScopes {
  import opened Listings
  import opened Wrappers

  const READ_SCOPE := "hamburger:read"
  const WRITE_SCOPE := "hamburger:write"
  const ADMIN_SCOPE := "hamburger:admin"

  /** The order of the consent screen. */
  const KNOWN: seq<string> := [READ_SCOPE, WRITE_SCOPE, ADMIN_SCOPE]

  datatype OAuthError =
    | InvalidScope
    | GrantNotFound
    | InvalidToken
    | InsufficientScope(missing: seq<string>)

  // ---- Canonical order ----

  /** The order of strings by their characters. */
  predicate Alphabetical(a: string, b: string)
  {
    b != "" && (a == "" || a[0] < b[0] || (a[0] == b[0] && Alphabetical(a[1..], b[1..])))
  }

  lemma {:induction false} AlphabeticalIrreflexive(a: string)
    ensures !Alphabetical(a, a)
  {
    if a != "" {
      AlphabeticalIrreflexive(a[1..]);
    }
  }

  lemma {:induction false} AlphabeticalTransitive(a: string, b: string, c: string)
    requires Alphabetical(a, b) && Alphabetical(b, c)
    ensures Alphabetical(a, c)
  {
    if a != "" && a[0] == b[0] && b[0] == c[0] {
      AlphabeticalTransitive(a[1..], b[1..], c[1..]);
    }
  }

  lemma {:induction false} AlphabeticalTotal(a: string, b: string)
    requires a != b
    ensures Alphabetical(a, b) || Alphabetical(b, a)
  {
    if a != "" && b != "" && a[0] == b[0] {
      assert a == [a[0]] + a[1..] && b == [b[0]] + b[1..];
      AlphabeticalTotal(a[1..], b[1..]);
    }
  }

  /** At the first difference the smaller character, or the end of `a`, decides. */
  ghost predicate DiffersAt(a: string, b: string, n: nat)
  {
    n <= |a| && n < |b| && a[..n] == b[..n] && (n == |a| || a[n] < b[n])
  }

  lemma DiffersLater(a: string, b: string, n: nat)
    requires a != "" && b != "" && a[0] == b[0]
    ensures DiffersAt(a[1..], b[1..], n) <==> DiffersAt(a, b, n + 1)
  {
    if n < |b| - 1 && n <= |a| - 1 {
      assert a[..n + 1] == [a[0]] + a[1..][..n] && b[..n + 1] == [b[0]] + b[1..][..n];
    }
  }

  lemma SameFirst(a: string, b: string, n: nat)
    requires n > 0 && DiffersAt(a, b, n)
    ensures a != "" && b != "" && a[0] == b[0]
  {
    assert a[..n][0] == b[..n][0];
  }

  lemma {:induction false} AlphabeticalIs(a: string, b: string)
    ensures Alphabetical(a, b) <==> exists n: nat :: DiffersAt(a, b, n)
  {
    if a != "" && b != "" && a[0] == b[0] {
      AlphabeticalIs(a[1..], b[1..]);
      if n: nat :| DiffersAt(a, b, n) {
        assert n != 0;
        DiffersLater(a, b, n - 1);
        assert DiffersAt(a[1..], b[1..], n - 1);
      }
      if n: nat :| DiffersAt(a[1..], b[1..], n) {
        DiffersLater(a, b, n);
        assert DiffersAt(a, b, n + 1);
      }
    } else {
      assert Alphabetical(a, b) ==> DiffersAt(a, b, 0);
      if n: nat :| DiffersAt(a, b, n) {
        if n > 0 {
          SameFirst(a, b, n);
        }
      }
    }
  }

  function Rank(name: string): nat
  {
    if name == READ_SCOPE then 0 else if name == WRITE_SCOPE then 1 else if name == ADMIN_SCOPE then 2 else 3
  }

  /** Known scopes in the order of the screen, then unknown ones by name. */
  predicate Before(a: string, b: string)
  {
    Rank(a) < Rank(b) || (Rank(a) == 3 && Rank(b) == 3 && Alphabetical(a, b))
  }

  lemma AlphabeticalOrders(s: set<string>)
    ensures Orders(Alphabetical, s)
  {
    forall x
      ensures !Alphabetical(x, x)
    {
      AlphabeticalIrreflexive(x);
    }
    forall x, y, z | Alphabetical(x, y) && Alphabetical(y, z)
      ensures Alphabetical(x, z)
    {
      AlphabeticalTransitive(x, y, z);
    }
    forall x, y | x in s && y in s && x != y
      ensures Alphabetical(x, y) || Alphabetical(y, x)
    {
      AlphabeticalTotal(x, y);
    }
  }

  lemma BeforeOrders(s: set<string>)
    ensures Orders(Before, s)
  {
    AlphabeticalOrders(s);
    forall x, y | x in s && y in s && x != y
      ensures Before(x, y) || Before(y, x)
    {
      AlphabeticalTotal(x, y);
    }
  }

  function Names(xs: seq<string>): set<string> { set x | x in xs }

  /** A list of scopes is canonical when it is in order, which also rules out duplicates. */
  ghost predicate Canonical(xs: seq<string>)
  {
    Sorted(xs, Before)
  }

  /** The one canonical list of the names in either list. */
  ghost function Merged(a: seq<string>, b: seq<string>): (r: seq<string>)
    ensures Canonical(r) && Names(r) == Names(a) + Names(b)
  {
    BeforeOrders(Names(a) + Names(b));
    Listed(Names(a) + Names(b), Before)
  }

  lemma CanonicalUnique(xs: seq<string>, ys: seq<string>)
    requires Canonical(xs) && Canonical(ys) && Names(xs) == Names(ys)
    ensures xs == ys
  {
    BeforeOrders({});
    assert forall x :: (x in xs <==> x in Names(xs)) && (x in ys <==> x in Names(ys));
    SortedUnique(xs, ys, Before);
  }

  method AddNames(seen: set<string>, names: seq<string>) returns (seen': set<string>)
    ensures seen' == seen + Names(names)
  {
    seen' := seen;
    for i := 0 to |names|
      invariant seen' == seen + Names(names[..i])
    {
      assert names[..i + 1] == names[..i] + [names[i]];
      seen' := seen' + {names[i]};
    }
    assert names[..|names|] == names;
  }

  /** Takes the known scopes out of `all`, in the order of the screen. */
  method TakeKnown(all: set<string>) returns (known: seq<string>, rest: set<string>)
    ensures Canonical(known) && Names(known) == all * Names(KNOWN) && rest == all - Names(KNOWN)
  {
    hide Before;
    known, rest := [], all;
    for i := 0 to |KNOWN|
      invariant rest == all - Names(KNOWN[..i])
      invariant Canonical(known) && Names(known) == all * Names(KNOWN[..i])
    {
      NamesStep(KNOWN, i);
      KnownInOrder(i);
      if KNOWN[i] in rest {
        KnownAppended(known, all, i);
        known := known + [KNOWN[i]];
        rest := rest - {KNOWN[i]};
      }
    }
    assert KNOWN[..|KNOWN|] == KNOWN;
  }

  method MergeOAuthScopes(a: seq<string>, b: seq<string>) returns (merged: seq<string>)
    ensures merged == Merged(a, b)
  {
    hide Canonical, Alphabetical;
    var seen := AddNames({}, a);
    seen := AddNames(seen, b);
    var known, rest := TakeKnown(seen);
    AlphabeticalOrders(rest);
    var unknown := List(rest, Alphabetical);
    NamesOfParts(seen, known, unknown);
    hide Names;
    merged := known + unknown;
    CanonicalUnique(merged, Merged(a, b));
  }

  /** The known names in their order, then the unknown ones, make the canonical list of all. */
  lemma NamesOfParts(all: set<string>, known: seq<string>, unknown: seq<string>)
    requires Canonical(known) && Names(known) == all * Names(KNOWN)
    requires Sorted(unknown, Alphabetical) && forall x :: x in unknown <==> x in all - Names(KNOWN)
    ensures Canonical(known + unknown) && Names(known + unknown) == all
  {
    hide Canonical, Alphabetical;
    assert forall x :: x in known ==> x in Names(known);
    assert forall x :: x in unknown ==> x in all - Names(KNOWN);
    UnknownLast(known, unknown);
    assert Names(unknown) == all - Names(KNOWN);
    assert Names(known + unknown) == Names(known) + Names(unknown);
  }

  lemma NamesStep(xs: seq<string>, i: nat)
    requires i < |xs|
    ensures Names(xs[..i + 1]) == Names(xs[..i]) + {xs[i]}
  {
  }

  lemma KnownAppended(known: seq<string>, all: set<string>, i: nat)
    requires i < |KNOWN| && KNOWN[i] in all
    requires Canonical(known) && Names(known) == all * Names(KNOWN[..i])
    ensures Canonical(known + [KNOWN[i]]) && Names(known + [KNOWN[i]]) == all * Names(KNOWN[..i + 1])
  {
    hide Before;
    NamesStep(KNOWN, i);
    KnownInOrder(i);
    forall x | x in known
      ensures Before(x, KNOWN[i])
    {
      assert x in Names(known);
    }
    assert Names(known + [KNOWN[i]]) == Names(known) + {KNOWN[i]};
  }

  lemma KnownInOrder(i: nat)
    requires i < |KNOWN|
    ensures forall x :: x in KNOWN[..i] ==> Before(x, KNOWN[i]) && x != KNOWN[i]
  {
  }

  lemma UnknownLast(known: seq<string>, unknown: seq<string>)
    requires Canonical(known) && Sorted(unknown, Alphabetical)
    requires (forall x :: x in known ==> x in KNOWN) && (forall x :: x in unknown ==> x !in KNOWN)
    ensures Canonical(known + unknown)
  {
    forall i, j | 0 <= i < j < |known + unknown|
      ensures Before((known + unknown)[i], (known + unknown)[j])
    {
      if j >= |known| {
        assert unknown[j - |known|] !in KNOWN;
        if i < |known| {
          assert known[i] in KNOWN;
        } else {
          assert unknown[i - |known|] !in KNOWN;
        }
      }
    }
  }

  lemma NoNames()
    ensures Names([]) == {}
  {
  }

  /** Merging is a union: order and grouping do not matter, and repeating a list adds nothing. */
  lemma MergeIsUnion(a: seq<string>, b: seq<string>, c: seq<string>)
    ensures Merged(a, b) == Merged(b, a)
    ensures Merged(Merged(a, b), c) == Merged(a, Merged(b, c))
    ensures Merged(a, a) == Merged([], a)
    ensures Merged(Merged(a, b), b) == Merged(a, b)
    ensures Canonical(a) ==> Merged(a, []) == a
  {
    hide Canonical, Merged, Names;
    assert Names([]) == {} by {
      NoNames();
    }
    CanonicalUnique(Merged(a, b), Merged(b, a));
    CanonicalUnique(Merged(Merged(a, b), c), Merged(a, Merged(b, c)));
    CanonicalUnique(Merged(a, a), Merged([], a));
    CanonicalUnique(Merged(Merged(a, b), b), Merged(a, b));
    if Canonical(a) {
      CanonicalUnique(Merged(a, []), a);
    }
  }

  /** The order of the consent screen: read, write, admin; then unknown names by their characters. */
  lemma ScreenOrder(name: string, other: string)
    requires name !in {"hamburger:read", "hamburger:write", "hamburger:admin"}
    requires other !in {"hamburger:read", "hamburger:write", "hamburger:admin"} && Alphabetical(name, other)
    ensures Merged([other, "hamburger:admin", "hamburger:read"], [name, "hamburger:write", other]) ==
            ["hamburger:read", "hamburger:write", "hamburger:admin", name, other]
  {
    var a, b := [other, "hamburger:admin", "hamburger:read"], [name, "hamburger:write", other];
    var all := ["hamburger:read", "hamburger:write", "hamburger:admin", name, other];
    assert Names(all) == Names(a) + Names(b);
    assert Canonical(all);
    hide Canonical, Alphabetical, Names;
    CanonicalUnique(Merged(a, b), all);
  }

  // ---- Consent, grants and tokens ----

  method OAuthConsentRequired(granted: seq<string>, requested: seq<string>) returns (required: bool)
    ensures required <==> !(Names(requested) <= Names(granted))
  {
    for i := 0 to |requested|
      invariant Names(requested[..i]) <= Names(granted)
    {
      assert requested[i] in Names(requested);
      if requested[i] !in granted {
        return true;
      }
      assert requested[..i + 1] == requested[..i] + [requested[i]];
    }
    assert requested[..|requested|] == requested;
    return false;
  }

  /** After an approval neither the approved scopes nor any granted earlier need consent again. */
  lemma ApprovedNeedsNoConsent(granted: seq<string>, approved: seq<string>, requested: seq<string>)
    requires Names(requested) <= Names(granted) + Names(approved)
    ensures Names(requested) <= Names(Merged(granted, approved))
  {
  }

  method Validate(names: seq<string>) returns (r: Result<(), OAuthError>)
    ensures r == if names != [] && Names(names) <= Names(KNOWN) then Ok(()) else Err(InvalidScope)
  {
    if names == [] {
      return Err(InvalidScope);
    }
    for i := 0 to |names|
      invariant Names(names[..i]) <= Names(KNOWN)
    {
      assert names[i] in Names(names);
      if names[i] !in KNOWN {
        assert names[i] !in Names(KNOWN);
        return Err(InvalidScope);
      }
      assert names[..i + 1] == names[..i] + [names[i]];
    }
    assert names[..|names|] == names;
    return Ok(());
  }

  method Permits(owner: nat, app: nat, granted: seq<string>, user: nat, client: nat, requested: seq<string>)
    returns (r: Result<(), OAuthError>)
    ensures r == if owner != user || app != client then Err(GrantNotFound)
                 else if Names(requested) <= Names(granted) then Ok(()) else Err(InvalidScope)
  {
    if owner != user || app != client {
      return Err(GrantNotFound);
    }
    var required := OAuthConsentRequired(granted, requested);
    return if required then Err(InvalidScope) else Ok(());
  }

  /** `missing` lists the entries of `required` outside `scopes`, in the order asked. */
  function Missing(scopes: seq<string>, required: seq<string>): (missing: seq<string>)
    ensures forall x :: x in missing <==> x in required && x !in scopes
  {
    if required == [] then []
    else
      var init, last := required[..|required| - 1], required[|required| - 1];
      assert forall x :: x in required <==> x in init || x == last;
      Missing(scopes, init) + (if last in scopes then [] else [last])
  }

  lemma MissingLast(scopes: seq<string>, required: seq<string>)
    requires required != []
    ensures var init, last := required[..|required| - 1], required[|required| - 1];
            Missing(scopes, required) == Missing(scopes, init) + (if last in scopes then [] else [last])
  {
  }

  lemma NothingRequired(scopes: seq<string>)
    ensures Missing(scopes, []) == []
  {
  }

  lemma MissingOne(scopes: seq<string>, name: string)
    ensures Missing(scopes, [name]) == if name in scopes then [] else [name]
  {
    MissingLast(scopes, [name]);
    assert [name][..|[name]| - 1] == [];
  }

  /** The missing scopes come in the order in which they were asked for. */
  lemma {:induction false} MissingInOrder(scopes: seq<string>, a: seq<string>, b: seq<string>)
    ensures Missing(scopes, a + b) == Missing(scopes, a) + Missing(scopes, b)
  {
    hide Missing;
    if b == [] {
      NothingRequired(scopes);
      assert a + b == a;
    } else {
      var init, last := b[..|b| - 1], b[|b| - 1];
      assert (a + b)[..|a + b| - 1] == a + init && (a + b)[|a + b| - 1] == last;
      MissingLast(scopes, a + b);
      MissingLast(scopes, b);
      MissingInOrder(scopes, a, init);
    }
  }

  datatype AccessToken = AccessToken(user: nat, scopes: seq<string>, audience: seq<string>)

  method Check(token: AccessToken, resource: string, required: seq<string>) returns (r: Result<(), OAuthError>)
    ensures r == if resource !in token.audience then Err(InvalidToken)
                 else if Missing(token.scopes, required) == [] then Ok(())
                 else Err(InsufficientScope(Missing(token.scopes, required)))
  {
    if resource !in token.audience {
      return Err(InvalidToken);
    }
    var missing: seq<string> := [];
    for i := 0 to |required|
      invariant missing == Missing(token.scopes, required[..i])
    {
      assert required[..i + 1][..i] == required[..i];
      if required[i] !in token.scopes {
        missing := missing + [required[i]];
      }
    }
    assert required[..|required|] == required;
    return if missing != [] then Err(InsufficientScope(missing)) else Ok(());
  }

  /**
   * Audience first, then the owner, then the scopes: a token whose owner left is invalid whatever
   * scopes it lacks. `found` is the introspected record.
   */
  method Authenticate(found: Option<AccessToken>, activeUsers: set<nat>, resource: string, required: seq<string>)
    returns (r: Result<nat, OAuthError>)
    ensures r.Ok? <==> found.Some? && resource in found.value.audience && found.value.user in activeUsers &&
                       Names(required) <= Names(found.value.scopes)
    ensures r.Ok? ==> r.value == found.value.user
    ensures r.Err? ==> r.error == if found.Some? && resource in found.value.audience && found.value.user in activeUsers
                                  then InsufficientScope(Missing(found.value.scopes, required)) else InvalidToken
  {
    if found.None? {
      return Err(InvalidToken);
    }
    var token := found.value;
    var valid := Check(token, resource, []);
    if valid.Err? {
      return Err(valid.error);
    }
    if token.user !in activeUsers {
      return Err(InvalidToken);
    }
    var permitted := Check(token, resource, required);
    assert Missing(token.scopes, required) == [] <==> Names(required) <= Names(token.scopes) by {
      NothingMissing(token.scopes, required);
    }
    if permitted.Err? {
      return Err(permitted.error);
    }
    return Ok(token.user);
  }

  lemma NothingMissing(scopes: seq<string>, required: seq<string>)
    ensures Missing(scopes, required) == [] <==> Names(required) <= Names(scopes)
  {
    var missing := Missing(scopes, required);
    if missing == [] {
      forall x | x in Names(required)
        ensures x in Names(scopes)
      {
        assert x !in missing;
      }
    } else {
      assert missing[0] in missing;
      assert missing[0] in Names(required) && missing[0] !in Names(scopes);
    }
  }
}
