/** Who may use cheatcodes: what was allowed, and what the allowed deploy. */
module Access {
  import opened Basics
  import opened CallFrames

  /** The addresses in `s` cover every explicit grant of the run and every deployment by one of them. */
  ghost predicate Covers(s: set<Address>, es: seq<Event>) {
    forall k :: 0 <= k < |es| ==>
      && (es[k].Allow? ==> es[k].account in s)
      && (es[k].Opcode? && es[k].scope.isDeployment && es[k].scope.caller in s ==> es[k].scope.self in s)
  }

  lemma {:induction false} UnwindAccess(cfg: Config, s: State, depth: int, s': State)
    requires Unwind(cfg, s, depth) == Some(s')
    ensures s'.allowed == s.allowed
    decreases |s.stack|
  {
    if s.stack != [] && Top(s).depth > depth {
      UnwindAccess(cfg, Pop(cfg, s).value, depth, s');
    }
  }

  lemma StepAccess(cfg: Config, s: State, e: Event, s': State)
    requires Step(cfg, s, e) == Some(s')
    ensures s'.allowed == match e
            case Allow(account) => s.allowed + {account}
            case Opcode(_, _, _, scope, _) => GrantCheatcodes(s.allowed, scope)
            case _ => s.allowed
  {
    match e
    case Opcode(_, _, depth, _, _) => UnwindAccess(cfg, s, depth, Unwind(cfg, s, depth).value);
    case Exit(depth, gasUsed) => UnwindAccess(cfg, Spend(s, gasUsed), depth, s');
    case _ =>
  }

  /**
   Over every run access is never lost, and it stays within every set that holds what was allowed at first
   and is closed under explicit grants and under deployments by its members.
   */
  lemma {:induction false} AccessContained(cfg: Config, s: State, es: seq<Event>, s': State, bound: set<Address>)
    requires Run(cfg, s, es) == Some(s') && s.allowed <= bound && Covers(bound, es)
    ensures s.allowed <= s'.allowed <= bound
    decreases |es|
  {
    if es != [] {
      var s1 := Step(cfg, s, es[0]).value;
      StepAccess(cfg, s, es[0], s1);
      AccessContained(cfg, s1, es[1..], s', bound);
    }
  }

  /** Event `e` grants access to `a`: outright, or because an allowed account deploys it. */
  predicate Grants(s: State, e: Event, a: Address) {
    || e == Allow(a)
    || (e.Opcode? && e.scope.isDeployment && e.scope.self == a && e.scope.caller in s.allowed)
  }

  ghost predicate Granted(cfg: Config, s: State, es: seq<Event>, a: Address)
    decreases |es|
  {
    es != [] && (Grants(s, es[0], a) ||
                 (Step(cfg, s, es[0]).Some? && Granted(cfg, Step(cfg, s, es[0]).value, es[1..], a)))
  }

  /**
   Over every run an account has access at the end exactly if it had it at first, was granted it, or ran as a
   contract being deployed by an account that had access by then.
   */
  lemma {:induction false} AccessIff(cfg: Config, s: State, es: seq<Event>, s': State, a: Address)
    requires Run(cfg, s, es) == Some(s')
    ensures a in s'.allowed <==> a in s.allowed || Granted(cfg, s, es, a)
    decreases |es|
  {
    if es != [] {
      var s1 := Step(cfg, s, es[0]).value;
      StepAccess(cfg, s, es[0], s1);
      AccessIff(cfg, s1, es[1..], s', a);
    }
  }
}
