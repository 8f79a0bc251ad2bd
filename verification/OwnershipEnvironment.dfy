/** The ownership variables that every child inherits: the chain of nested invocations and, for each, the
    domain (invocation, job, state directory, Gradle home) that it is bound to. */
module OwnershipEnvironment {
  import opened Wrappers
  import opened Json
  import opened Texts

  const JOB_ENV := "P2PKIT_AUDIT_JOB_ID"
  const CHAIN_ENV := "P2PKIT_AUDIT_OWNERSHIP_CHAIN"
  const DOMAINS_ENV := "P2PKIT_AUDIT_OWNERSHIP_DOMAINS"
  const STATE_ENV := "P2PKIT_AUDIT_STATE_DIR"
  const HOME_ENV := "GRADLE_USER_HOME"

  const MAX_DEPTH := 32
  const MAX_ENCODED := 512 * 1024

  const ID: Text := [105, 100]
  const JOB: Text := [106, 111, 98]
  const STATE: Text := [115, 116, 97, 116, 101]
  const HOME: Text := [104, 111, 109, 101]

  datatype Domain = Domain(id: Text, job: Text, state: Text, home: Text)

  // ----- the chain -----

  /** 32 lower-case hexadecimal digits. */
  predicate IsId(t: Text) {
    |t| == 32 && forall c <- t :: 48 <= c <= 57 || 97 <= c <= 102
  }

  predicate ChainOk(chain: Text) {
    |Split(chain, COLON)| <= MAX_DEPTH && forall p <- Split(chain, COLON) :: IsId(p)
  }

  predicate Distinct(parts: seq<Text>) {
    forall i, j :: 0 <= i < j < |parts| ==> parts[i] != parts[j]
  }

  // ----- domains -----

  function Lookup(o: Object, key: Text): (r: Option<Text>)
    ensures r.Some? ==> exists i | 0 <= i < |o| :: o[i] == (key, r.value)
    ensures r.None? ==> forall m <- o :: m.0 != key
  {
    if o == [] then None else if o[0].0 == key then Some(o[0].1) else Lookup(o[1..], key)
  }

  predicate IsField(key: Text) {
    key == ID || key == JOB || key == STATE || key == HOME
  }

  /** The domain of an object with exactly the four keys. */
  function AsDomain(o: Object): Option<Domain> {
    if DistinctKeys(o) && (forall m <- o :: IsField(m.0)) &&
       Lookup(o, ID).Some? && Lookup(o, JOB).Some? && Lookup(o, STATE).Some? && Lookup(o, HOME).Some?
    then Some(Domain(Lookup(o, ID).value, Lookup(o, JOB).value, Lookup(o, STATE).value, Lookup(o, HOME).value))
    else None
  }

  predicate Bindable(t: Text) {
    t != [] && 0 !in t
  }

  predicate BoundTo(o: Object, id: Text) {
    var d := AsDomain(o);
    d.Some? && d.value.id == id && IsId(d.value.job) && Bindable(d.value.state) && Bindable(d.value.home)
  }

  /** The domains that an environment's chain and encoding bind together, or a refusal. */
  function Domains(chain: Text, encoded: Text): (r: Option<seq<Object>>)
    ensures r.Some? && chain != [] ==> |r.value| == |Split(chain, COLON)| <= MAX_DEPTH && Distinct(Split(chain, COLON))
  {
    if chain == [] then if encoded == [] then Some([]) else None
    else if !ChainOk(chain) || |encoded| > MAX_ENCODED then None
    else
      var list := Load(encoded);
      if list.Some? && AllBound(list.value, Split(chain, COLON)) && Distinct(Split(chain, COLON)) then list else None
  }

  predicate AllBound(list: seq<Object>, parts: seq<Text>) {
    |list| == |parts| && forall i | 0 <= i < |list| :: BoundTo(list[i], parts[i])
  }

  function Parts(chain: Text): seq<Text> {
    if chain == [] then [] else Split(chain, COLON)
  }

  function Get(base: Env, key: string): Text {
    if key in base then base[key] else []
  }

  datatype Request = Request(job: Text, invocation: Text, state: Text, home: Text, allowNewContext: bool)

  function ObjectOf(r: Request): Object {
    [(ID, r.invocation), (JOB, r.job), (STATE, r.state), (HOME, r.home)]
  }

  function DomainOf(r: Request): Domain {
    Domain(r.invocation, r.job, r.state, r.home)
  }

  /** The current variables repeat the last domain. */
  predicate Current(env: Env, o: Object) {
    var d := AsDomain(o);
    && d.Some? && Get(env, JOB_ENV) == d.value.job
    && STATE_ENV in env && env[STATE_ENV] == d.value.state
    && HOME_ENV in env && env[HOME_ENV] == d.value.home
  }

  /** The environment of a nested invocation; `samePath` compares normalised absolute paths. */
  function Environment(base: Env, r: Request, samePath: (Text, Text) -> bool): Option<Env> {
    if !IsId(r.job) || !IsId(r.invocation) then None else
    var inheritedJob, chain := Get(base, JOB_ENV), Get(base, CHAIN_ENV);
    var domains := Domains(chain, Get(base, DOMAINS_ENV));
    if domains.None? then None
    else if domains.value != [] && !Current(base, domains.value[|domains.value| - 1]) then None
    else if inheritedJob != [] && inheritedJob != r.job && !r.allowNewContext then None
    else if inheritedJob != [] && domains.value == [] then None
    else if r.invocation in Parts(chain) || |Parts(chain)| >= MAX_DEPTH || !Distinct(Parts(chain)) then None
    else if !r.allowNewContext && Get(base, HOME_ENV) != [] && !samePath(base[HOME_ENV], r.home) then None
    else
      var encoded := Dump(domains.value + [ObjectOf(r)]);
      if |encoded| > MAX_ENCODED then None
      else Some(base[JOB_ENV := r.job][CHAIN_ENV := Join(Parts(chain) + [r.invocation], COLON)][DOMAINS_ENV := encoded]
                [STATE_ENV := r.state][HOME_ENV := r.home])
  }

  // ----- round trip -----

  ghost predicate CleanObject(o: Object) {
    forall m <- o :: Clean(m.0) && Clean(m.1)
  }

  ghost predicate CleanAll(list: seq<Object>) {
    forall o <- list :: CleanObject(o)
  }

  ghost predicate CleanRequest(r: Request) {
    Bindable(r.state) && Bindable(r.home) && Clean(r.state) && Clean(r.home)
  }

  lemma MergedKeepsExactlyClean(o: Object)
    ensures Merged(o) == o <==> CleanObject(o)
  {
    forall m <- o ensures (Merge(m.0), Merge(m.1)) == m <==> Clean(m.0) && Clean(m.1) {
      MergeKeepsExactlyClean(m.0);
      MergeKeepsExactlyClean(m.1);
    }
    if Merged(o) == o {
      forall m <- o ensures Clean(m.0) && Clean(m.1) {
        var i :| 0 <= i < |o| && o[i] == m;
        assert Merged(o)[i] == o[i];
      }
    } else {
      var i :| 0 <= i < |o| && Merged(o)[i] != o[i];
      assert o[i] in o;
    }
  }

  lemma MergedAllKeepsExactlyClean(list: seq<Object>)
    ensures MergedAll(list) == list <==> CleanAll(list)
  {
    hide Merged, CleanObject;
    forall o <- list ensures Merged(o) == o <==> CleanObject(o) { MergedKeepsExactlyClean(o); }
    if MergedAll(list) == list {
      forall o <- list ensures CleanObject(o) {
        var i :| 0 <= i < |list| && list[i] == o;
        assert MergedAll(list)[i] == list[i];
      }
    } else {
      var i :| 0 <= i < |list| && MergedAll(list)[i] != list[i];
      assert list[i] in list;
    }
  }

  /** An object with the four keys keeps them, so it can be read back. */
  lemma DomainReadable(o: Object)
    requires AsDomain(o).Some?
    ensures DistinctKeys(Merged(o))
  {
    hide Merge, IsField;
    forall i | 0 <= i < |o| ensures Merge(o[i].0) == o[i].0 {
      assert o[i] in o;
      PlainKey(o[i].0);
    }
  }

  lemma PlainKey(key: Text)
    requires IsField(key)
    ensures Clean(key) && Merge(key) == key
  {
    PlainClean(key);
    MergeKeepsExactlyClean(key);
  }

  lemma {:induction false} PlainClean(s: Text)
    requires forall c <- s :: !High(c)
    ensures Clean(s)
  {
    if |s| >= 2 { PlainClean(s[1..]); }
  }

  lemma ObjectOfRequest(r: Request)
    ensures AsDomain(ObjectOf(r)) == Some(DomainOf(r))
  {
    var o := ObjectOf(r);
    assert |ID| == 2 && |JOB| == 3 && |STATE| == 5 && |HOME| == 4;
    assert o[1..][0] == o[1] && o[1..][1..][0] == o[2] && o[1..][1..][1..][0] == o[3];
  }

  lemma CleanObjectOf(r: Request)
    ensures CleanObject(ObjectOf(r)) <==> Clean(r.invocation) && Clean(r.job) && Clean(r.state) && Clean(r.home)
  {
    hide Clean;
    var o := ObjectOf(r);
    assert o[0] in o && o[1] in o && o[2] in o && o[3] in o;
    PlainKey(ID);
    PlainKey(JOB);
    PlainKey(STATE);
    PlainKey(HOME);
  }

  lemma ChainGrows(chain: Text, id: Text)
    requires IsId(id) && (chain == [] || ChainOk(chain)) && |Parts(chain)| < MAX_DEPTH
    requires Distinct(Parts(chain)) && id !in Parts(chain)
    ensures var grown := Join(Parts(chain) + [id], COLON);
            grown != [] && Split(grown, COLON) == Parts(chain) + [id] && ChainOk(grown) && Distinct(Split(grown, COLON))
  {
    var parts := Parts(chain) + [id];
    assert parts[|parts| - 1] == id;
    forall p <- parts ensures IsId(p) && COLON !in p {}
    SplitJoin(parts, COLON);
    assert id in Split(Join(parts, COLON), COLON) && [] !in Split(Join(parts, COLON), COLON);
  }

  /** What the new environment holds, and what it inherited. */
  lemma EnvironmentHolds(base: Env, r: Request, samePath: (Text, Text) -> bool)
    requires Environment(base, r, samePath).Some?
    ensures var e := Environment(base, r, samePath).value;
      var chain := Get(base, CHAIN_ENV);
      var inherited := Domains(chain, Get(base, DOMAINS_ENV));
      && inherited.Some?
      && Get(e, JOB_ENV) == r.job && STATE_ENV in e && e[STATE_ENV] == r.state
      && HOME_ENV in e && e[HOME_ENV] == r.home
      && CHAIN_ENV in e && e[CHAIN_ENV] == Join(Parts(chain) + [r.invocation], COLON)
      && DOMAINS_ENV in e && e[DOMAINS_ENV] == Dump(inherited.value + [ObjectOf(r)])
      && |e[DOMAINS_ENV]| <= MAX_ENCODED
      && IsId(r.job) && IsId(r.invocation)
      && |Parts(chain)| < MAX_DEPTH && r.invocation !in Parts(chain) && Distinct(Parts(chain))
  {
    hide Domains, Dump, Join, Parts, ObjectOf, Current, Distinct, IsId;
    assert |JOB_ENV| == 19 && |CHAIN_ENV| == 28 && |DOMAINS_ENV| == 30 && |STATE_ENV| == 22 && |HOME_ENV| == 16;
  }

  /** Inherited domains are bound to the inherited chain, and can be written and read again. */
  lemma InheritedBound(chain: Text, encoded: Text)
    requires Domains(chain, encoded).Some?
    ensures var list := Domains(chain, encoded).value;
      && AllBound(list, Parts(chain)) && Readable(list) && (chain == [] || ChainOk(chain))
  {
    hide Load, ChainOk, Split, Distinct;
    var list := Domains(chain, encoded).value;
    forall o <- list ensures DistinctKeys(Merged(o)) {
      hide IsId, Bindable, DistinctKeys, Merged, AsDomain;
      var i :| 0 <= i < |list| && list[i] == o;
      assert BoundTo(list[i], Parts(chain)[i]);
      DomainReadable(o);
    }
  }

  lemma IdClean(t: Text)
    requires IsId(t)
    ensures Clean(t)
  {
    PlainClean(t);
  }

  /** The new object is accepted under its own name exactly when its directories are bindable. */
  lemma RequestBound(r: Request)
    requires IsId(r.job)
    ensures BoundTo(ObjectOf(r), r.invocation) <==> Bindable(r.state) && Bindable(r.home)
  {
    hide AsDomain, ObjectOf, IsId, Bindable;
    ObjectOfRequest(r);
  }

  /** What a nested invocation's environment parses back to: the inherited domains and the new one, exactly
      when every string survives the encoding and the new directories are non-empty and free of NUL. */
  lemma EnvironmentRoundTrip(base: Env, r: Request, samePath: (Text, Text) -> bool)
    requires Environment(base, r, samePath).Some?
    ensures var e := Environment(base, r, samePath).value;
      var inherited := Domains(Get(base, CHAIN_ENV), Get(base, DOMAINS_ENV)).value;
      && CHAIN_ENV in e && DOMAINS_ENV in e
      && Split(e[CHAIN_ENV], COLON) == Parts(Get(base, CHAIN_ENV)) + [r.invocation] && e[CHAIN_ENV] != []
      && (Domains(e[CHAIN_ENV], e[DOMAINS_ENV]) == Some(inherited + [ObjectOf(r)])
          <==> (CleanAll(inherited) && CleanRequest(r)))
  {
    var chain := Get(base, CHAIN_ENV);
    EnvironmentHolds(base, r, samePath);
    var e := Environment(base, r, samePath).value;
    var inherited := Domains(chain, Get(base, DOMAINS_ENV)).value;
    var list := inherited + [ObjectOf(r)];
    InheritedBound(chain, Get(base, DOMAINS_ENV));
    ChainGrows(chain, r.invocation);
    ObjectOfRequest(r);
    DomainReadable(ObjectOf(r));
    assert Readable(list) by { ReadableGrows(inherited, ObjectOf(r)); }
    LoadDump(list);
    MergedAllKeepsExactlyClean(list);
    CleanGrows(inherited, r);
    RequestBound(r);
    BoundGrows(inherited, Parts(chain), ObjectOf(r), r.invocation);
    RoundTripStep(e[CHAIN_ENV], e[DOMAINS_ENV], list, Parts(chain) + [r.invocation]);
  }

  lemma RoundTripStep(chain: Text, encoded: Text, list: seq<Object>, parts: seq<Text>)
    requires chain != [] && ChainOk(chain) && Split(chain, COLON) == parts && Distinct(parts)
    requires |encoded| <= MAX_ENCODED && Load(encoded) == Some(MergedAll(list))
    requires MergedAll(list) == list <==> CleanAll(list)
    ensures Domains(chain, encoded) == Some(list) <==> (CleanAll(list) && AllBound(list, parts))
  {
    hide ChainOk, Split, Distinct, Load, MergedAll, CleanAll, AllBound;
  }

  lemma ReadableGrows(list: seq<Object>, o: Object)
    requires Readable(list) && DistinctKeys(Merged(o))
    ensures Readable(list + [o])
  {
    hide DistinctKeys, Merged;
  }

  lemma CleanGrows(list: seq<Object>, r: Request)
    requires IsId(r.job) && IsId(r.invocation)
    ensures CleanAll(list + [ObjectOf(r)]) <==> (CleanAll(list) && Clean(r.state) && Clean(r.home))
  {
    IdClean(r.job);
    IdClean(r.invocation);
    CleanObjectOf(r);
    hide CleanObject, ObjectOf, Clean, IsId;
    assert forall o :: o in list + [ObjectOf(r)] <==> o in list || o == ObjectOf(r);
  }

  lemma BoundGrows(list: seq<Object>, parts: seq<Text>, o: Object, id: Text)
    requires AllBound(list, parts)
    ensures AllBound(list + [o], parts + [id]) <==> BoundTo(o, id)
  {
    hide BoundTo;
    var n := |list|;
    assert (list + [o])[n] == o && (parts + [id])[n] == id;
    assert forall i | 0 <= i < n :: (list + [o])[i] == list[i] && (parts + [id])[i] == parts[i];
  }

  lemma {:induction false} EscapeLength(s: Text)
    ensures |Escape(s)| <= 12 * |s|
  {
    if s != [] { EscapeLength(s[1..]); }
  }

  lemma MemberLength(m: (Text, Text), longest: nat)
    requires |m.0| <= longest && |m.1| <= longest
    ensures |Member(m)| < 24 * longest + 6
  {
    hide Escape;
    EscapeLength(m.0);
    EscapeLength(m.1);
  }

  lemma {:induction false} MembersLength(o: Object, each: nat)
    requires forall m <- o :: |Member(m)| < each
    ensures |Members(o)| <= |o| * each
    decreases |o|
  {
    hide Member;
    if o != [] {
      assert o[0] in o;
      MembersLength(o[1..], each);
      assert |o| * each == |o[1..]| * each + each;
    }
  }

  /** The domain that is read back for a request alone in its chain: its strings with the pairs joined. */
  lemma MergedRequest(r: Request)
    requires IsId(r.job) && IsId(r.invocation)
    ensures Merged(ObjectOf(r)) == ObjectOf(r.(state := Merge(r.state), home := Merge(r.home)))
  {
    IdClean(r.job);
    IdClean(r.invocation);
    MergeKeepsExactlyClean(r.job);
    MergeKeepsExactlyClean(r.invocation);
    PlainKey(ID);
    PlainKey(JOB);
    PlainKey(STATE);
    PlainKey(HOME);
    hide Merge, Clean, IsId;
    var o := ObjectOf(r);
    assert |o| == 4 && o[0] == (ID, r.invocation) && o[1] == (JOB, r.job) && o[2] == (STATE, r.state) && o[3] == (HOME, r.home);
  }

  /** An outermost invocation with directories of ordinary length is accepted, whatever they are named. */
  lemma OutermostAccepted(r: Request, samePath: (Text, Text) -> bool)
    requires IsId(r.job) && IsId(r.invocation) && |r.state| <= 4096 && |r.home| <= 4096
    ensures Environment(map[], r, samePath).Some?
  {
    var o := ObjectOf(r);
    forall m <- o ensures |Member(m)| < 24 * 4096 + 6 { MemberLength(m, 4096); }
    MembersLength(o, 24 * 4096 + 6);
    assert [] + [o] == [o];
    assert |Dump([o])| == |Members(o)| + 4;
    hide Members, Dump, IsId;
  }

  /** A state directory named by two code points, a high surrogate before a low one, is accepted and bound as
      another directory: the one named by the character that they stand for. */
  lemma SurrogatePairRenamed(r: Request, samePath: (Text, Text) -> bool)
    requires IsId(r.job) && IsId(r.invocation) && r.state == [0xd83d, 0xde00]
    requires Bindable(r.home) && Clean(r.home) && |r.home| <= 4096
    ensures Bindable(r.state) && Environment(map[], r, samePath).Some?
    ensures var e := Environment(map[], r, samePath).value;
      && EnvironmentDomains(e) == Some([ObjectOf(r.(state := [0x1f600]))])
      && AsDomain(ObjectOf(r.(state := [0x1f600]))) == Some(DomainOf(r).(state := [0x1f600]))
  {
    hide Environment, Domains, Dump, Join, Split, Merged, Merge, ObjectOf, AsDomain, DistinctKeys, ChainOk, IsId, Clean;
    OutermostAccepted(r, samePath);
    EnvironmentHolds(map[], r, samePath);
    var e := Environment(map[], r, samePath).value;
    PairMerges(r.state);
    MergeKeepsExactlyClean(r.home);
    var bound := r.(state := [0x1f600]);
    MergedRequest(r);
    ObjectOfRequest(r);
    ObjectOfRequest(bound);
    DomainReadable(ObjectOf(r));
    RequestBound(bound);
    NoChain();
    ChainGrows([], r.invocation);
    OneRead(e[CHAIN_ENV], e[DOMAINS_ENV], ObjectOf(r), ObjectOf(bound), r.invocation);
  }

  lemma NoChain()
    ensures Domains([], []) == Some([])
  {
  }

  lemma PairMerges(s: Text)
    requires s == [0xd83d, 0xde00]
    ensures Merge(s) == [0x1f600]
  {
    assert s[2..] == [];
    assert Merge(s) == [Combine(s[0], s[1])] + [];
  }

  /** A chain of one whose encoding is that of one object. */
  lemma OneRead(chain: Text, encoded: Text, o: Object, back: Object, id: Text)
    requires chain != [] && ChainOk(chain) && Split(chain, COLON) == [] + [id] && encoded == Dump([] + [o])
    requires |encoded| <= MAX_ENCODED && DistinctKeys(Merged(o)) && Merged(o) == back && BoundTo(back, id)
    ensures Domains(chain, encoded) == Some([back])
  {
    hide Merged, BoundTo, ChainOk, Split, Dump, DistinctKeys;
    assert [] + [o] == [o] && [] + [id] == [id];
    LoadDump([o]);
    assert MergedAll([o]) == [back];
  }

  // ----- any depth of nesting -----

  /** One invocation inside another, innermost last. */
  function Nest(base: Env, requests: seq<Request>, samePath: (Text, Text) -> bool): Option<Env> {
    if requests == [] then Some(base) else
    var outer := Nest(base, requests[..|requests| - 1], samePath);
    if outer.None? then None else Environment(outer.value, requests[|requests| - 1], samePath)
  }

  function Objects(requests: seq<Request>): (list: seq<Object>)
    ensures |list| == |requests|
    ensures forall i | 0 <= i < |list| :: list[i] == ObjectOf(requests[i])
  {
    if requests == [] then []
    else Objects(requests[..|requests| - 1]) + [ObjectOf(requests[|requests| - 1])]
  }

  function EnvironmentDomains(env: Env): Option<seq<Object>> {
    Domains(Get(env, CHAIN_ENV), Get(env, DOMAINS_ENV))
  }

  /** After any number of nestings the environment still binds every invocation, in order, each under its own
      name, and at most 32 of them. */
  lemma {:induction false} NestingKeepsDomains(base: Env, requests: seq<Request>, samePath: (Text, Text) -> bool)
    requires Nest(base, requests, samePath).Some? && requests != []
    requires EnvironmentDomains(base).Some? && CleanAll(EnvironmentDomains(base).value)
    requires forall r <- requests :: CleanRequest(r)
    ensures var e := Nest(base, requests, samePath).value;
      && EnvironmentDomains(e) == Some(EnvironmentDomains(base).value + Objects(requests))
      && CleanAll(EnvironmentDomains(e).value)
      && Get(e, CHAIN_ENV) != [] && Distinct(Split(Get(e, CHAIN_ENV), COLON))
      && |EnvironmentDomains(base).value| + |requests| <= MAX_DEPTH
      && Current(e, ObjectOf(requests[|requests| - 1]))
  {
    hide Environment, EnvironmentDomains, CleanAll, CleanRequest, ObjectOf, Split, Distinct, Current;
    var before, last := requests[..|requests| - 1], requests[|requests| - 1];
    var inherited := EnvironmentDomains(base).value;
    var outer := Nest(base, before, samePath).value;
    if before == [] {
      assert inherited + Objects(before) == inherited;
    } else {
      NestingKeepsDomains(base, before, samePath);
    }
    assert EnvironmentDomains(outer) == Some(inherited + Objects(before));
    assert (inherited + Objects(before)) + [ObjectOf(last)] == inherited + Objects(requests);
    NestOnce(outer, last, samePath);
  }

  lemma NestOnce(outer: Env, r: Request, samePath: (Text, Text) -> bool)
    requires Environment(outer, r, samePath).Some? && CleanRequest(r)
    requires EnvironmentDomains(outer).Some? && CleanAll(EnvironmentDomains(outer).value)
    ensures var e := Environment(outer, r, samePath).value;
      && EnvironmentDomains(e) == Some(EnvironmentDomains(outer).value + [ObjectOf(r)])
      && CleanAll(EnvironmentDomains(e).value)
      && Get(e, CHAIN_ENV) != [] && Distinct(Split(Get(e, CHAIN_ENV), COLON))
      && |EnvironmentDomains(e).value| <= MAX_DEPTH
      && Current(e, ObjectOf(r))
  {
    EnvironmentRoundTrip(outer, r, samePath);
    EnvironmentHolds(outer, r, samePath);
    ObjectOfRequest(r);
    CleanGrows(EnvironmentDomains(outer).value, r);
    hide Environment, CleanAll, ObjectOf, AsDomain, Split, Distinct, Clean;
  }

  // ----- recognition -----

  predicate Ascii(t: Text) {
    forall c <- t :: c < 128
  }

  /** Whether a process with this byte environment belongs to the scope of domain `self`; no answer stands
      for a refusal. `encode` is the file-system encoding of a string. */
  function Ours(env: Env, self: Domain, encode: Text -> Option<Text>): Option<bool> {
    if CHAIN_ENV !in env || self.id !in Split(env[CHAIN_ENV], COLON) then Some(false)
    else if DOMAINS_ENV !in env || !Ascii(env[CHAIN_ENV]) || !Ascii(env[DOMAINS_ENV]) then None
    else
      var domains := Domains(env[CHAIN_ENV], env[DOMAINS_ENV]);
      if domains.None? || domains.value == [] then None else
      var last := AsDomain(domains.value[|domains.value| - 1]);
      if last.None? || JOB_ENV !in env || env[JOB_ENV] != last.value.job
         || STATE_ENV !in env || encode(last.value.state) != Some(env[STATE_ENV])
         || HOME_ENV !in env || encode(last.value.home) != Some(env[HOME_ENV])
      then None
      else Some(exists o <- domains.value :: AsDomain(o) == Some(self))
  }

  /** The byte environment that a process is started with. */
  ghost predicate Launched(env: Env, bytes: Env, encode: Text -> Option<Text>) {
    forall k <- env :: k in bytes && encode(env[k]) == Some(bytes[k])
  }

  ghost predicate EncodesAscii(encode: Text -> Option<Text>) {
    forall t :: Ascii(t) ==> encode(t) == Some(t)
  }

  lemma EscapeOneAscii(c: CodePoint)
    ensures Ascii(EscapeOne(c))
  {
  }

  lemma {:induction false} EscapeAscii(s: Text)
    ensures Ascii(Escape(s))
  {
    if s != [] {
      EscapeOneAscii(s[0]);
      EscapeAscii(s[1..]);
    }
  }

  lemma {:induction false} MembersAscii(o: Object)
    ensures Ascii(Members(o))
    decreases |o|
  {
    if o != [] {
      EscapeAscii(o[0].0);
      EscapeAscii(o[0].1);
      MembersAscii(o[1..]);
    }
  }

  lemma {:induction false} ElementsAscii(list: seq<Object>)
    ensures Ascii(Elements(list))
    decreases |list|
  {
    if list != [] {
      MembersAscii(list[0]);
      ElementsAscii(list[1..]);
    }
  }

  lemma {:induction false} JoinAscii(parts: seq<Text>)
    requires parts != [] && forall p <- parts :: Ascii(p)
    ensures Ascii(Join(parts, COLON))
    decreases |parts|
  {
    assert parts[0] in parts;
    if |parts| > 1 { JoinAscii(parts[1..]); }
  }

  /** The chain and the encoded domains of a nested environment are plain ASCII. */
  lemma EnvironmentAscii(base: Env, r: Request, samePath: (Text, Text) -> bool)
    requires Environment(base, r, samePath).Some?
    ensures var e := Environment(base, r, samePath).value;
      && CHAIN_ENV in e && Ascii(e[CHAIN_ENV]) && DOMAINS_ENV in e && Ascii(e[DOMAINS_ENV])
      && JOB_ENV in e && Ascii(e[JOB_ENV])
  {
    hide Environment, Domains, Dump, Join, ObjectOf, Ascii, ChainOk;
    EnvironmentHolds(base, r, samePath);
    var chain := Get(base, CHAIN_ENV);
    InheritedBound(chain, Get(base, DOMAINS_ENV));
    ChainAscii(chain, r.invocation);
    DumpAscii(Domains(chain, Get(base, DOMAINS_ENV)).value + [ObjectOf(r)]);
    IdAscii(r.job);
  }

  lemma IdAscii(t: Text)
    requires IsId(t)
    ensures Ascii(t)
  {
  }

  lemma ChainAscii(chain: Text, id: Text)
    requires IsId(id) && (chain == [] || ChainOk(chain))
    ensures Ascii(Join(Parts(chain) + [id], COLON))
  {
    hide Join, Ascii, IsId;
    forall p <- Parts(chain) + [id] ensures Ascii(p) { IdAscii(p); }
    JoinAscii(Parts(chain) + [id]);
  }

  lemma DumpAscii(list: seq<Object>)
    ensures Ascii(Dump(list))
  {
    ElementsAscii(list);
    hide Elements;
  }

  /** A well-launched environment answers by whether the domain is in its list. */
  lemma LaunchedRecognition(e: Env, bytes: Env, encode: Text -> Option<Text>, self: Domain, list: seq<Object>)
    requires CHAIN_ENV in e && Ascii(e[CHAIN_ENV]) && DOMAINS_ENV in e && Ascii(e[DOMAINS_ENV])
    requires JOB_ENV in e && Ascii(e[JOB_ENV]) && e[CHAIN_ENV] != []
    requires Domains(e[CHAIN_ENV], e[DOMAINS_ENV]) == Some(list) && list != [] && Current(e, list[|list| - 1])
    requires Launched(e, bytes, encode) && EncodesAscii(encode)
    ensures Ours(bytes, self, encode) == Some(exists o <- list :: AsDomain(o) == Some(self))
  {
    hide Domains, AsDomain, Ascii, EncodesAscii, Split;
    AsciiKept(e, bytes, encode, CHAIN_ENV);
    AsciiKept(e, bytes, encode, DOMAINS_ENV);
    AsciiKept(e, bytes, encode, JOB_ENV);
    ListedUnderName(e[CHAIN_ENV], e[DOMAINS_ENV], self);
  }

  lemma AsciiKept(e: Env, bytes: Env, encode: Text -> Option<Text>, key: string)
    requires key in e && Ascii(e[key]) && Launched(e, bytes, encode) && EncodesAscii(encode)
    ensures key in bytes && bytes[key] == e[key]
  {
  }

  lemma ListedUnderName(chain: Text, encoded: Text, self: Domain)
    requires Domains(chain, encoded).Some? && chain != []
    ensures (exists o <- Domains(chain, encoded).value :: AsDomain(o) == Some(self)) ==> self.id in Split(chain, COLON)
  {
    InheritedBound(chain, encoded);
    hide Domains, AsDomain, IsId, Bindable, Split;
    var list := Domains(chain, encoded).value;
    if o :| o in list && AsDomain(o) == Some(self) {
      var i :| 0 <= i < |list| && list[i] == o;
      assert BoundTo(list[i], Parts(chain)[i]);
    }
  }

  /** Exactly the scopes whose full domain is in the chain recognise a process so nested. */
  lemma NestedRecognition(base: Env, requests: seq<Request>, samePath: (Text, Text) -> bool,
                          bytes: Env, encode: Text -> Option<Text>, self: Domain)
    requires Nest(base, requests, samePath).Some? && requests != []
    requires EnvironmentDomains(base).Some? && CleanAll(EnvironmentDomains(base).value)
    requires forall r <- requests :: CleanRequest(r)
    requires Launched(Nest(base, requests, samePath).value, bytes, encode) && EncodesAscii(encode)
    ensures Ours(bytes, self, encode) ==
      Some((exists o <- EnvironmentDomains(base).value :: AsDomain(o) == Some(self)) ||
           (exists r <- requests :: DomainOf(r) == self))
  {
    var e := Nest(base, requests, samePath).value;
    var inherited := EnvironmentDomains(base).value;
    var list := inherited + Objects(requests);
    NestingKeepsDomains(base, requests, samePath);
    EnvironmentAscii(Nest(base, requests[..|requests| - 1], samePath).value, requests[|requests| - 1], samePath);
    assert list[|list| - 1] == ObjectOf(requests[|requests| - 1]);
    LaunchedRecognition(e, bytes, encode, self, list);
    ListedDomains(inherited, requests, self);
  }

  lemma ListedDomains(inherited: seq<Object>, requests: seq<Request>, self: Domain)
    ensures (exists o <- inherited + Objects(requests) :: AsDomain(o) == Some(self)) <==>
            ((exists o <- inherited :: AsDomain(o) == Some(self)) || (exists r <- requests :: DomainOf(r) == self))
  {
    forall r <- requests ensures AsDomain(ObjectOf(r)) == Some(DomainOf(r)) { ObjectOfRequest(r); }
    hide AsDomain, ObjectOf, DomainOf;
    if r :| r in requests && DomainOf(r) == self {
      var i :| 0 <= i < |requests| && requests[i] == r;
      assert Objects(requests)[i] == ObjectOf(r);
      assert ObjectOf(r) in inherited + Objects(requests);
    }
  }
}
