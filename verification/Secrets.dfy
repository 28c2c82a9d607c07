/** Secret Manager's flat, string-keyed tables of internal/service/secretmanager/secretmanager.go. */
module Secrets {
  import opened Prelude
  import opened Decimal

  const VERSIONS: string := "/versions/"

  function SecretName(project: string, id: string): string {
    "projects/" + project + "/secrets/" + id
  }

  /** The key of one version in the flat table. */
  function VersionKey(name: string, n: nat): string {
    name + VERSIONS + Digits(n)
  }

  // Keys.

  /** No digit is a slash, so the last slash of a version key tells name and number apart. */
  lemma VersionKeyInjective(a: string, m: nat, b: string, n: nat)
    requires VersionKey(a, m) == VersionKey(b, n)
    ensures a == b && m == n
  {
    DigitsRoundTrip(m);
    DigitsRoundTrip(n);
    var p, q := a + VERSIONS, b + VERSIONS;
    LastSlash(p, Digits(m), q, Digits(n));
    assert p[..|a|] == a && q[..|b|] == b;
    DigitsInjective(m, n);
  }

  /** Two texts that end in a slash, continued without slashes to the same text, are equal. */
  lemma LastSlash(p: string, d: string, q: string, e: string)
    requires p != "" && p[|p| - 1] == '/' && q != "" && q[|q| - 1] == '/'
    requires '/' !in d && '/' !in e && p + d == q + e
    ensures p == q && d == e
  {
    var s := p + d;
    var x, y := s[|p| - 1], s[|q| - 1];
    assert |p| < |q| ==> y in d;
    assert |q| < |p| ==> x in e;
    assert s[..|p|] == p && s[..|q|] == q && s[|p|..] == d && s[|q|..] == e;
  }

  /** A secret whose name continues another's with a path through its versions. */
  predicate NestedUnder(inner: string, outer: string) {
    outer + VERSIONS <= inner + "/"
  }

  /** The prefix that delete removes catches a key of `inner` exactly when `inner` is the secret itself or nested under it. */
  lemma PrefixCatches(outer: string, inner: string, n: nat)
    ensures outer + VERSIONS <= VersionKey(inner, n) <==> inner == outer || NestedUnder(inner, outer)
  {
    var p, k := outer + VERSIONS, VersionKey(inner, n);
    DigitsRoundTrip(n);
    assert k == (inner + "/") + "versions/" + Digits(n);
    if NestedUnder(inner, outer) {
      assert inner + "/" <= k;
    }
    if p <= k {
      PrefixOfKey(outer, inner, Digits(n));
    }
  }

  /** Behind the slash that follows the name, the only slash is the one that ends "/versions/". */
  lemma PrefixOfKey(outer: string, inner: string, digits: string)
    requires '/' !in digits && outer + VERSIONS <= inner + VERSIONS + digits
    ensures inner == outer || NestedUnder(inner, outer)
  {
    var p, k := outer + VERSIONS, inner + VERSIONS + digits;
    var last := |p| - 1;
    var c := k[last];
    assert c == p[last] == '/' && k[..|p|] == p;
    assert last >= |inner + VERSIONS| ==> c in digits;
    if last > |inner| {
      assert c == VERSIONS[last - |inner|];
      assert p == (inner + VERSIONS)[..|p|];
      assert p[..|outer|] == outer && p[..|inner|] == inner;
    } else {
      assert (inner + "/")[..|p|] == k[..|p|];
    }
  }

  predicate SlashFree(s: string) { '/' !in s }

  function Slashes(s: string): nat {
    if s == "" then 0 else Slashes(s[..|s| - 1]) + if s[|s| - 1] == '/' then 1 else 0
  }

  lemma {:induction false} SlashesOfConcat(a: string, b: string)
    ensures Slashes(a + b) == Slashes(a) + Slashes(b)
  {
    if b == "" {
      assert a + b == a;
    } else {
      assert (a + b)[..|a + b| - 1] == a + b[..|b| - 1];
      SlashesOfConcat(a, b[..|b| - 1]);
    }
  }

  lemma {:induction false} NoSlashes(s: string)
    requires SlashFree(s)
    ensures Slashes(s) == 0
  {
    if s != "" {
      NoSlashes(s[..|s| - 1]);
    }
  }

  lemma SlashesAround(s: string)
    requires SlashFree(s)
    ensures Slashes(s + "/") == 1 && Slashes("/" + s + "/") == 2
  {
    NoSlashes(s);
    SlashesOfConcat(s, "/");
    SlashesOfConcat("/" + s, "/");
    SlashesOfConcat("/", s);
    assert "/"[..0] == "";
  }

  lemma SlashesOfLiterals()
    ensures Slashes("projects/") == 1 && Slashes("/secrets/") == 2 && Slashes(VERSIONS) == 2 && Slashes("/") == 1
  {
    SlashesOfProjects();
    SlashesOfSecrets();
    SlashesOfVersions();
    assert "/"[..0] == "";
  }

  lemma SlashesOfProjects()
    ensures Slashes("projects/") == 1
  {
    SlashesAround("projects");
    assert "projects" + "/" == "projects/";
  }

  lemma SlashesOfSecrets()
    ensures Slashes("/secrets/") == 2
  {
    SlashesAround("secrets");
    assert "/" + "secrets" + "/" == "/secrets/";
  }

  lemma SlashesOfVersions()
    ensures Slashes(VERSIONS) == 2
  {
    SlashesAround("versions");
    assert "/" + "versions" + "/" == VERSIONS;
  }

  /** A name made of slash-free ids. */
  ghost predicate PlainName(name: string) {
    exists project, id :: SlashFree(project) && SlashFree(id) && name == SecretName(project, id)
  }

  lemma SlashesOfPlainName(name: string)
    requires PlainName(name)
    ensures Slashes(name) == 3
  {
    var project, id :| SlashFree(project) && SlashFree(id) && name == SecretName(project, id);
    SlashesOfLiterals();
    NoSlashes(project);
    NoSlashes(id);
    SlashesOfConcat("projects/" + project + "/secrets/", id);
    SlashesOfConcat("projects/" + project, "/secrets/");
    SlashesOfConcat("projects/", project);
  }

  /** Slash-free ids never nest. */
  lemma PlainNamesDoNotNest(inner: string, outer: string)
    requires PlainName(inner) && PlainName(outer)
    ensures !NestedUnder(inner, outer)
  {
    if NestedUnder(inner, outer) {
      var p := outer + VERSIONS;
      SlashesOfPlainName(inner);
      SlashesOfPlainName(outer);
      SlashesOfLiterals();
      SlashesOfConcat(outer, VERSIONS);
      SlashesOfConcat(inner, "/");
      assert inner + "/" == p + (inner + "/")[|p|..];
      SlashesOfConcat(p, (inner + "/")[|p|..]);
    }
  }

  /** Projects without slashes keep their secrets' names apart, whatever the ids. */
  lemma SecretNameInjective(p: string, i: string, q: string, j: string)
    requires SlashFree(p) && SlashFree(q) && SecretName(p, i) == SecretName(q, j)
    ensures p == q && i == j
  {
    var name := SecretName(p, i);
    assert name == "projects/" + (p + ['/'] + ("secrets/" + i)) == "projects/" + (q + ['/'] + ("secrets/" + j));
    assert name[9..] == p + ['/'] + ("secrets/" + i) == q + ['/'] + ("secrets/" + j);
    CutInvertsJoin(p, '/', "secrets/" + i);
    CutInvertsJoin(q, '/', "secrets/" + j);
    assert ("secrets/" + i)[8..] == i && ("secrets/" + j)[8..] == j;
  }

  /** The names as the API documents them. */
  lemma NamesAreAsDocumented()
    ensures SecretName("p", "db") == "projects/p/secrets/db"
    ensures VersionKey(SecretName("p", "db"), 1) == "projects/p/secrets/db/versions/1"
  {
  }

  // What the tables stand for.

  /** A secret: how many versions were added since its creation, and those still stored. */
  datatype Secret = Secret(counter: nat, versions: map<nat, string>)

  type Vault = map<string, Secret>

  function Created(v: Vault, name: string): Vault {
    if name in v then v else v[name := Secret(0, map[])]
  }

  function Added(v: Vault, name: string, payload: string): Vault {
    if name !in v then v
    else
      var n := v[name].counter + 1;
      v[name := Secret(n, v[name].versions[n := payload])]
  }

  /** Deleting drops the secret, and also the versions of every secret nested under it. */
  function Deleted(v: Vault, name: string): Vault {
    if name !in v then v
    else map s | s in v && s != name :: if NestedUnder(s, name) then Secret(v[s].counter, map[]) else v[s]
  }

  /** The versions of the secret are exactly 1..counter. */
  ghost predicate Contiguous(s: Secret) {
    forall n: nat :: n in s.versions <==> 1 <= n <= s.counter
  }

  /** The flat tables hold exactly the vault. */
  ghost predicate Refines(secrets: set<string>, versions: map<string, string>, counter: map<string, nat>, v: Vault) {
    && secrets == v.Keys
    && counter.Keys <= v.Keys
    && (forall name :: name in v ==> Get(counter, name, 0) == v[name].counter)
    && (forall name, n: nat :: Holds(v, name, n) ==> 1 <= n <= v[name].counter && StoredAs(versions, name, n, v[name].versions[n]))
    && (forall key :: key in versions ==> Owned(v, key))
  }

  ghost predicate Holds(v: Vault, name: string, n: nat) {
    name in v && n in v[name].versions
  }

  ghost predicate StoredAs(versions: map<string, string>, name: string, n: nat, payload: string) {
    VersionKey(name, n) in versions && versions[VersionKey(name, n)] == payload
  }

  ghost predicate Owned(v: Vault, key: string) {
    exists name, n: nat :: Holds(v, name, n) && key == VersionKey(name, n)
  }

  lemma AddedIsStored(versions: map<string, string>, v: Vault, name: string, payload: string, s: string, k: nat)
    requires name in v && Holds(Added(v, name, payload), s, k)
    requires Holds(v, s, k) ==> 1 <= k <= v[s].counter && StoredAs(versions, s, k, v[s].versions[k])
    ensures var w := Added(v, name, payload);
            && 1 <= k <= w[s].counter
            && StoredAs(versions[VersionKey(name, v[name].counter + 1) := payload], s, k, w[s].versions[k])
  {
    var n := v[name].counter + 1;
    if s != name || k != n {
      assert Holds(v, s, k);
      if VersionKey(s, k) == VersionKey(name, n) {
        VersionKeyInjective(s, k, name, n);
      }
    }
  }

  lemma AddedIsOwned(v: Vault, name: string, payload: string, key: string)
    requires name in v && (Owned(v, key) || key == VersionKey(name, v[name].counter + 1))
    ensures Owned(Added(v, name, payload), key)
  {
    var n, w := v[name].counter + 1, Added(v, name, payload);
    if key == VersionKey(name, n) {
      assert Holds(w, name, n);
    } else {
      var s, k: nat :| Holds(v, s, k) && key == VersionKey(s, k);
      assert Holds(w, s, k);
    }
  }

  lemma AddRefines(secrets: set<string>, versions: map<string, string>, counter: map<string, nat>, v: Vault,
                   name: string, payload: string)
    requires Refines(secrets, versions, counter, v) && name in v
    ensures var n := v[name].counter + 1;
            Refines(secrets, versions[VersionKey(name, n) := payload], counter[name := n], Added(v, name, payload))
  {
    var n, w := v[name].counter + 1, Added(v, name, payload);
    var versions' := versions[VersionKey(name, n) := payload];
    forall s, k: nat | Holds(w, s, k)
      ensures 1 <= k <= w[s].counter && StoredAs(versions', s, k, w[s].versions[k])
    {
      AddedIsStored(versions, v, name, payload, s, k);
    }
    forall key | key in versions' ensures Owned(w, key) {
      if key != VersionKey(name, n) {
        assert Owned(v, key);
      }
      AddedIsOwned(v, name, payload, key);
    }
  }

  lemma CreateRefines(secrets: set<string>, versions: map<string, string>, counter: map<string, nat>, v: Vault, name: string)
    requires Refines(secrets, versions, counter, v) && name !in v
    ensures Refines(secrets + {name}, versions, counter, Created(v, name))
  {
    var w := Created(v, name);
    forall s, k: nat | Holds(w, s, k)
      ensures 1 <= k <= w[s].counter && StoredAs(versions, s, k, w[s].versions[k])
    {
      assert Holds(v, s, k);
    }
    forall key | key in versions ensures Owned(w, key) {
      assert Owned(v, key);
      var s, k: nat :| Holds(v, s, k) && key == VersionKey(s, k);
      assert Holds(w, s, k);
    }
  }

  lemma DeleteRefines(secrets: set<string>, versions: map<string, string>, counter: map<string, nat>, v: Vault, name: string)
    requires Refines(secrets, versions, counter, v) && name in v
    ensures Refines(secrets - {name},
                    map key | key in versions && !(name + VERSIONS <= key) :: versions[key],
                    counter - {name},
                    Deleted(v, name))
  {
    var w, rest := Deleted(v, name), map key | key in versions && !(name + VERSIONS <= key) :: versions[key];
    forall s, k: nat | Holds(w, s, k)
      ensures 1 <= k <= w[s].counter && StoredAs(rest, s, k, w[s].versions[k])
    {
      assert Holds(v, s, k);
      PrefixCatches(name, s, k);
    }
    forall key | key in rest ensures Owned(w, key) {
      assert Owned(v, key);
      var s, k: nat :| Holds(v, s, k) && key == VersionKey(s, k);
      PrefixCatches(name, s, k);
      assert Holds(w, s, k);
    }
  }

  /** Looking a version up by its text finds it exactly when the text is the number of a stored version. */
  lemma LookupRefines(secrets: set<string>, versions: map<string, string>, counter: map<string, nat>, v: Vault,
                      name: string, ver: string)
    requires Refines(secrets, versions, counter, v) && SlashFree(ver)
    ensures name + VERSIONS + ver in versions <==> exists n: nat :: Holds(v, name, n) && ver == Digits(n)
    ensures forall n: nat :: Holds(v, name, n) && ver == Digits(n) ==> versions[name + VERSIONS + ver] == v[name].versions[n]
  {
    var key := name + VERSIONS + ver;
    if key in versions {
      assert Owned(v, key);
      var s, k: nat :| Holds(v, s, k) && key == VersionKey(s, k);
      DigitsRoundTrip(k);
      LastSlash(name + VERSIONS, ver, s + VERSIONS, Digits(k));
      assert (name + VERSIONS)[..|name|] == name && (s + VERSIONS)[..|s|] == s;
    }
    forall n: nat | Holds(v, name, n) && ver == Digits(n)
      ensures key in versions && versions[key] == v[name].versions[n]
    {
      assert StoredAs(versions, name, n, v[name].versions[n]);
    }
  }

  // The service.

  datatype Answer = Done | BadRequest | NotFound | AlreadyExists | Version(name: string, payload: string)

  class SecretManager {
    var Secrets: set<string>
    var Versions: map<string, string>
    var Counter: map<string, nat>
    ghost var Vault: Vault

    ghost predicate Valid()
      reads this
    {
      Refines(Secrets, Versions, Counter, Vault)
    }

    constructor ()
      ensures Valid() && Vault == map[]
    {
      Secrets, Versions, Counter, Vault := {}, map[], map[], map[];
    }

    method Create(project: string, id: string) returns (r: Answer)
      requires Valid()
      modifies this
      ensures Valid()
      ensures var name := SecretName(project, id);
              if id == "" then r == BadRequest && Vault == old(Vault)
              else Vault == Created(old(Vault), name) && r == if name in old(Vault) then AlreadyExists else Done
    {
      if id == "" {
        return BadRequest;
      }
      var name := SecretName(project, id);
      if name in Secrets {
        return AlreadyExists;
      }
      CreateRefines(Secrets, Versions, Counter, Vault, name);
      Secrets := Secrets + {name};
      Vault := Created(Vault, name);
      return Done;
    }

    method StoreVersion(project: string, id: string, payload: string) returns (r: Answer)
      requires Valid()
      modifies this
      ensures Valid()
      ensures var name := SecretName(project, id);
              Vault == Added(old(Vault), name, payload)
              && r == if name in Vault then Version(VersionKey(name, Vault[name].counter), payload) else NotFound
    {
      var secretName := SecretName(project, id);
      if secretName !in Secrets {
        return NotFound;
      }
      AddRefines(Secrets, Versions, Counter, Vault, secretName, payload);
      Counter := Counter[secretName := Get(Counter, secretName, 0) + 1];
      var version := Digits(Counter[secretName]);
      var name := secretName + VERSIONS + version;
      Versions := Versions[name := payload];
      Vault := Added(Vault, secretName, payload);
      return Version(name, payload);
    }

    method Delete(project: string, id: string) returns (r: Answer)
      requires Valid()
      modifies this
      ensures Valid()
      ensures var name := SecretName(project, id);
              Vault == Deleted(old(Vault), name) && r == if name in old(Vault) then Done else NotFound
    {
      var name := SecretName(project, id);
      if name !in Secrets {
        return NotFound;
      }
      DeleteRefines(Secrets, Versions, Counter, Vault, name);
      Secrets := Secrets - {name};
      Versions := WithoutPrefix(Versions, name + VERSIONS);
      Counter := Counter - {name};
      Vault := Deleted(Vault, name);
      return Done;
    }

    /**
     `ver` is the version segment in front of the custom verb. A text that
     names no version of the secret can only reach the version of another
     secret, and only when it has slashes in it.
     */
    method Access(project: string, id: string, ver: string) returns (r: Answer)
      requires Valid()
      ensures var key := SecretName(project, id) + VERSIONS + ver;
              ver != "latest" ==> (r == NotFound || (Owned(Vault, key) && r.Version? && r.name == key))
      ensures var name := SecretName(project, id);
              var n := if name in Vault then Vault[name].counter else 0;
              ver == "latest" ==>
                r == if Holds(Vault, name, n) then Version(VersionKey(name, n), Vault[name].versions[n]) else NotFound
      ensures var name := SecretName(project, id);
              ver != "latest" && SlashFree(ver) ==>
                && (forall n: nat :: Holds(Vault, name, n) && ver == Digits(n)
                      ==> r == Version(VersionKey(name, n), Vault[name].versions[n]))
                && ((forall n: nat :: Holds(Vault, name, n) ==> ver != Digits(n)) ==> r == NotFound)
    {
      ghost var secretName := SecretName(project, id);
      var name := SecretName(project, id) + VERSIONS + ver;
      if SlashFree(ver) {
        LookupRefines(Secrets, Versions, Counter, Vault, secretName, ver);
      }
      if ver == "latest" {
        var n := Get(Counter, SecretName(project, id), 0);
        name := SecretName(project, id) + VERSIONS + Digits(n);
        LatestIsCounter(Secrets, Versions, Counter, Vault, secretName);
      }
      if name !in Versions {
        return NotFound;
      }
      return Version(name, Versions[name]);
    }
  }

  /** The loop of Delete. */
  method WithoutPrefix(versions: map<string, string>, prefix: string) returns (rest: map<string, string>)
    ensures rest == map key | key in versions && !(prefix <= key) :: versions[key]
  {
    rest := versions;
    var vnames := versions.Keys;
    while vnames != {}
      invariant vnames <= versions.Keys
      invariant rest == map key | key in versions && (key in vnames || !(prefix <= key)) :: versions[key]
      decreases vnames
    {
      var vname :| vname in vnames;
      vnames := vnames - {vname};
      if prefix <= vname {
        rest := rest - {vname};
      }
    }
  }

  lemma LatestIsCounter(secrets: set<string>, versions: map<string, string>, counter: map<string, nat>, v: Vault, name: string)
    requires Refines(secrets, versions, counter, v)
    ensures var n := if name in v then v[name].counter else 0;
            && Get(counter, name, 0) == n
            && (VersionKey(name, n) in versions <==> Holds(v, name, n))
            && (Holds(v, name, n) ==> versions[VersionKey(name, n)] == v[name].versions[n])
  {
    var n := if name in v then v[name].counter else 0;
    DigitsRoundTrip(n);
    LookupRefines(secrets, versions, counter, v, name, Digits(n));
    forall m: nat | Digits(m) == Digits(n) ensures m == n {
      DigitsInjective(m, n);
    }
  }

  // Runs.

  datatype Op =
    | Create(project: string, id: string)
    | AddVersion(project: string, id: string, payload: string)
    | Delete(project: string, id: string)
  {
    function Name(): string { SecretName(project, id) }
  }

  function Apply(v: Vault, op: Op): Vault {
    match op
    case Create(_, id) => if id == "" then v else Created(v, op.Name())
    case AddVersion(_, _, payload) => Added(v, op.Name(), payload)
    case Delete(_, _) => Deleted(v, op.Name())
  }

  function Run(ops: seq<Op>): Vault {
    if ops == [] then map[] else Apply(Run(ops[..|ops| - 1]), ops[|ops| - 1])
  }

  /** Which secret an op is about: a project and an id. */
  type Key = (string, string)

  /** The plain meaning of an op: each secret of each project is the list of payloads added since it was last created. */
  function Record(h: map<Key, seq<string>>, op: Op): map<Key, seq<string>> {
    var key := (op.project, op.id);
    match op
    case Create(_, id) => if id == "" || key in h then h else h[key := []]
    case AddVersion(_, _, payload) => if key in h then h[key := h[key] + [payload]] else h
    case Delete(_, _) => h - {key}
  }

  function History(ops: seq<Op>): map<Key, seq<string>> {
    if ops == [] then map[] else Record(History(ops[..|ops| - 1]), ops[|ops| - 1])
  }

  ghost predicate IsHistoryOf(s: Secret, payloads: seq<string>) {
    && s.counter == |payloads|
    && Contiguous(s)
    && (forall n: nat :: n in s.versions ==> s.versions[n] == payloads[n - 1])
  }

  ghost predicate Kept(v: Vault, key: Key, payloads: seq<string>) {
    && SlashFree(key.0) && SlashFree(key.1)
    && SecretName(key.0, key.1) in v && IsHistoryOf(v[SecretName(key.0, key.1)], payloads)
  }

  ghost predicate Named(h: map<Key, seq<string>>, name: string) {
    exists key :: key in h && name == SecretName(key.0, key.1)
  }

  ghost predicate Agree(v: Vault, h: map<Key, seq<string>>) {
    && (forall key :: key in h ==> Kept(v, key, h[key]))
    && (forall name :: name in v ==> Named(h, name))
  }

  lemma OthersKept(v: Vault, w: Vault, h: map<Key, seq<string>>, project: string, id: string)
    requires Agree(v, h) && SlashFree(project) && SlashFree(id)
    requires forall name :: name in v && name != SecretName(project, id) ==> name in w && w[name] == v[name]
    ensures forall key :: key in h && key != (project, id) ==> Kept(w, key, h[key])
  {
    forall key | key in h && key != (project, id) ensures Kept(w, key, h[key]) {
      assert Kept(v, key, h[key]);
      if SecretName(key.0, key.1) == SecretName(project, id) {
        SecretNameInjective(key.0, key.1, project, id);
      }
    }
  }

  lemma NamedByKey(v: Vault, h: map<Key, seq<string>>, project: string, id: string)
    requires Agree(v, h) && SlashFree(project) && SlashFree(id)
    ensures (project, id) in h <==> SecretName(project, id) in v
  {
    var name := SecretName(project, id);
    if name in v {
      assert Named(h, name);
      var key :| key in h && name == SecretName(key.0, key.1);
      assert Kept(v, key, h[key]);
      SecretNameInjective(key.0, key.1, project, id);
    }
    if (project, id) in h {
      assert Kept(v, (project, id), h[(project, id)]);
    }
  }

  lemma CreatesAgree(v: Vault, h: map<Key, seq<string>>, op: Op)
    requires Agree(v, h) && op.Create? && SlashFree(op.project) && SlashFree(op.id)
    ensures Agree(Apply(v, op), Record(h, op))
  {
    NamedByKey(v, h, op.project, op.id);
    var w, g := Apply(v, op), Record(h, op);
    OthersKept(v, w, h, op.project, op.id);
    forall name | name in w ensures Named(g, name) {
      if name == op.Name() {
        assert (op.project, op.id) in g || w == v;
      }
      assert name in v ==> Named(h, name);
    }
  }

  lemma AddsAgree(v: Vault, h: map<Key, seq<string>>, op: Op)
    requires Agree(v, h) && op.AddVersion? && SlashFree(op.project) && SlashFree(op.id)
    ensures Agree(Apply(v, op), Record(h, op))
  {
    var key := (op.project, op.id);
    NamedByKey(v, h, op.project, op.id);
    var w, g := Apply(v, op), Record(h, op);
    OthersKept(v, w, h, op.project, op.id);
    if key in h {
      assert Kept(v, key, h[key]);
      assert Kept(w, key, g[key]);
    }
    forall name | name in w ensures Named(g, name) {
      assert Named(h, name);
    }
  }

  lemma DeletesAgree(v: Vault, h: map<Key, seq<string>>, op: Op)
    requires Agree(v, h) && op.Delete? && SlashFree(op.project) && SlashFree(op.id)
    ensures Agree(Apply(v, op), Record(h, op))
  {
    var key, name := (op.project, op.id), op.Name();
    NamedByKey(v, h, op.project, op.id);
    var w, g := Apply(v, op), Record(h, op);
    forall s | s in v && s != name ensures s in w && w[s] == v[s] {
      assert Named(h, s);
      var k :| k in h && s == SecretName(k.0, k.1);
      assert Kept(v, k, h[k]) && PlainName(s) && PlainName(name);
      PlainNamesDoNotNest(s, name);
    }
    OthersKept(v, w, h, op.project, op.id);
    forall s | s in w ensures Named(g, s) {
      assert (s in v && s != name) || w == v;
      assert Named(h, s);
      var k :| k in h && s == SecretName(k.0, k.1);
      assert k in g;
    }
  }

  lemma StepsAgree(v: Vault, h: map<Key, seq<string>>, op: Op)
    requires Agree(v, h) && SlashFree(op.project) && SlashFree(op.id)
    ensures Agree(Apply(v, op), Record(h, op))
  {
    match op
    case Create(_, _) => CreatesAgree(v, h, op);
    case AddVersion(_, _, _) => AddsAgree(v, h, op);
    case Delete(_, _) => DeletesAgree(v, h, op);
  }

  /**
   For slash-free ids a run keeps exactly the plain meaning: there is a secret
   for each project and id that was created and not deleted since, and no
   other; its stored versions are 1..Counter, each with the payload it was
   added with, and the latest is the one added last. Secrets of different
   projects do not touch each other, even under one id.
   */
  lemma {:induction false} VersionsAreHistory(ops: seq<Op>)
    requires forall i :: 0 <= i < |ops| ==> SlashFree(ops[i].project) && SlashFree(ops[i].id)
    ensures Agree(Run(ops), History(ops))
    ensures forall key :: key in History(ops) && History(ops)[key] != [] ==>
              var s := Run(ops)[SecretName(key.0, key.1)];
              s.counter in s.versions && s.versions[s.counter] == Last(History(ops)[key], "")
  {
    if ops != [] {
      var n := |ops| - 1;
      VersionsAreHistory(ops[..n]);
      StepsAgree(Run(ops[..n]), History(ops[..n]), ops[n]);
    }
    forall key | key in History(ops) ensures Kept(Run(ops), key, History(ops)[key]) {
    }
  }

  /**
   The same of the flat tables: after any such run, a key is in the version
   table exactly when it is the key of one of the payloads added to a secret
   since it was last created, and it holds that payload.
   */
  lemma TablesAreHistory(secrets: set<string>, versions: map<string, string>, counter: map<string, nat>, ops: seq<Op>, text: string)
    requires Refines(secrets, versions, counter, Run(ops))
    requires forall i :: 0 <= i < |ops| ==> SlashFree(ops[i].project) && SlashFree(ops[i].id)
    ensures var h := History(ops);
            && (forall name :: name in secrets <==> Named(h, name))
            && (text in versions <==> exists key, n: nat :: Recorded(h, key, n, text))
            && (forall key, n: nat :: Recorded(h, key, n, text) ==> text in versions && versions[text] == h[key][n - 1])
            && (forall key :: key in h ==> Get(counter, SecretName(key.0, key.1), 0) == |h[key]|)
  {
    var v, h := Run(ops), History(ops);
    VersionsAreHistory(ops);
    forall key | key in h
      ensures SecretName(key.0, key.1) in v && Get(counter, SecretName(key.0, key.1), 0) == |h[key]|
    {
      assert Kept(v, key, h[key]);
    }
    forall key, n: nat | Recorded(h, key, n, text) ensures text in versions && versions[text] == h[key][n - 1] {
      assert Kept(v, key, h[key]) && Holds(v, SecretName(key.0, key.1), n);
      assert StoredAs(versions, SecretName(key.0, key.1), n, v[SecretName(key.0, key.1)].versions[n]);
    }
    if text in versions {
      assert Owned(v, text);
      var name, n: nat :| Holds(v, name, n) && text == VersionKey(name, n);
      assert Named(h, name);
      var key :| key in h && name == SecretName(key.0, key.1);
      assert Kept(v, key, h[key]) && Recorded(h, key, n, text);
    }
  }

  /** The text is the key of the `n`th payload recorded for the secret. */
  ghost predicate Recorded(h: map<Key, seq<string>>, key: Key, n: nat, text: string) {
    key in h && 1 <= n <= |h[key]| && text == VersionKey(SecretName(key.0, key.1), n)
  }

  /** In general, deleting a secret leaves all others alone exactly when no secret with versions is nested under it. */
  lemma DeleteKeepsOthers(v: Vault, name: string)
    requires name in v
    ensures Deleted(v, name) == v - {name}
       <==> forall s :: s in v && s != name && NestedUnder(s, name) ==> v[s].versions == map[]
  {
    if Deleted(v, name) == v - {name} {
      forall s | s in v && s != name && NestedUnder(s, name) ensures v[s].versions == map[] {
        assert Deleted(v, name)[s] == (v - {name})[s];
      }
    }
  }

  /** An id with slashes in it does lose its versions to another secret's deletion. */
  lemma NestedIdLosesVersions(payload: string)
    ensures var outer, inner := SecretName("p", "a"), SecretName("p", "a/versions/b");
            var v := Added(Created(Created(map[], outer), inner), inner, payload);
            v[inner].versions == map[1 := payload] && Deleted(v, outer)[inner] == Secret(1, map[])
  {
    var outer, inner := SecretName("p", "a"), SecretName("p", "a/versions/b");
    assert inner == outer + VERSIONS + "b";
    assert outer + VERSIONS <= inner + "/";
    assert |inner| > |outer|;
  }
}
