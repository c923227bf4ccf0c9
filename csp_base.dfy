/** The CSP records the Tenner Grid compiler produces: variables with an
    initial domain, table constraints over an ordered scope, and the CSP
    container the builders add them to. */
module CspBase {

  /** A variable: its name and the domain it is created with. The solver's
      working ("current") domain is not part of this model; while the model is
      built it equals the initial domain. */
  datatype Variable = Variable(name: string, domain: seq<int>)

  /** A table constraint: an ordered scope and the tuples it allows, one value
      per scope position, in scope order. */
  datatype Constraint = Constraint(scope: seq<Variable>, tuples: seq<seq<int>>)

  /** Every tuple has the scope's arity and draws each value from the domain of
      the variable at the same position. */
  predicate WellFormed(c: Constraint)
  {
    forall t :: t in c.tuples ==>
      |t| == |c.scope| && forall k :: 0 <= k < |t| ==> t[k] in c.scope[k].domain
  }

  /** The values an assignment gives to a scope, in scope order. */
  function ScopeValues(scope: seq<Variable>, asg: map<Variable, int>): (vals: seq<int>)
    requires forall v :: v in scope ==> v in asg
    ensures |vals| == |scope|
    ensures forall k :: 0 <= k < |scope| ==> vals[k] == asg[scope[k]]
  {
    seq(|scope|, k requires 0 <= k < |scope| => asg[scope[k]])
  }

  /** An assignment satisfies a table constraint when it covers the scope and
      the scope's values form one of the allowed tuples. */
  predicate Satisfies(asg: map<Variable, int>, c: Constraint)
  {
    (forall v :: v in c.scope ==> v in asg) && ScopeValues(c.scope, asg) in c.tuples
  }

  /** A solution of a CSP: every variable gets a value of its domain and every
      constraint is satisfied. */
  predicate IsSolution(asg: map<Variable, int>, vars: seq<Variable>, cons: seq<Constraint>)
  {
    (forall v :: v in vars ==> v in asg && asg[v] in v.domain) &&
    (forall c :: c in cons ==> Satisfies(asg, c))
  }

  /** The CSP container: the builders add every variable and every constraint
      to it, in order. */
  class Csp {
    var name: string
    var vars: seq<Variable>
    var cons: seq<Constraint>

    constructor (name: string)
      ensures this.name == name && vars == [] && cons == []
    {
      this.name := name;
      vars := [];
      cons := [];
    }

    method AddVar(v: Variable)
      modifies this
      ensures vars == old(vars) + [v]
      ensures cons == old(cons) && name == old(name)
    {
      vars := vars + [v];
    }

    method AddConstraint(c: Constraint)
      modifies this
      ensures cons == old(cons) + [c]
      ensures vars == old(vars) && name == old(name)
    {
      cons := cons + [c];
    }
  }
}
