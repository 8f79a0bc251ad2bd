/** The Linux scope with the real ownership test: whatever it may signal has named the scope's own domain. */
module ScopeRecognition {
  import opened Wrappers
  import opened OwnershipEnvironment
  import Kernel
  import LinuxScope

  /** The ownership test as the scope applies it; a refusal is a malformed environment. */
  function Recogniser(self: Domain, encode: Text -> Option<Text>): Env -> LinuxScope.Verdict {
    env =>
      match Ours(env, self, encode)
      case Some(true) => LinuxScope.Owned
      case Some(false) => LinuxScope.Unmarked
      case None => LinuxScope.Malformed
  }

  /** Every lifetime that a session signalled was once seen by the kernel with an environment whose chain
      parses, and whose domains include the scope's own in full. */
  method SessionReachesOnlyItsDomain(scope: LinuxScope.Scope, self: Domain, encode: Text -> Option<Text>,
                                     calls: seq<LinuxScope.Call>)
    returns (replies: seq<LinuxScope.Reply>)
    requires scope.Valid() && scope.machine.os.released == {} && scope.recognise == Recogniser(self, encode)
    modifies scope, scope.machine
    ensures forall d <- scope.machine.os.delivered | d !in old(scope.machine.os).delivered ::
      && d.target !in scope.baseline && d.target in scope.proof
      && (d.target, scope.proof[d.target]) in scope.machine.os.exposed && NamesDomain(scope.proof[d.target], self)
  {
    ghost var stages;
    replies, stages := LinuxScope.Session(scope, calls);
    forall d <- scope.machine.os.delivered | d !in old(scope.machine.os).delivered
      ensures (d.target, scope.proof[d.target]) in scope.machine.os.exposed && NamesDomain(scope.proof[d.target], self)
    {
      OwnedNamesDomain(scope.proof[d.target], self, encode);
    }
  }

  ghost predicate NamesDomain(env: Env, self: Domain) {
    && CHAIN_ENV in env && DOMAINS_ENV in env && Domains(env[CHAIN_ENV], env[DOMAINS_ENV]).Some?
    && exists o <- Domains(env[CHAIN_ENV], env[DOMAINS_ENV]).value :: AsDomain(o) == Some(self)
  }

  /** An environment is recognised only on the strength of the full domain in its chain. */
  lemma OwnedNamesDomain(env: Env, self: Domain, encode: Text -> Option<Text>)
    requires Recogniser(self, encode)(env) == LinuxScope.Owned
    ensures NamesDomain(env, self)
  {
    hide Domains, AsDomain;
  }
}
