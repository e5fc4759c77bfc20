/**
 Properties of a shader unit over whole call sequences: whatever its caller
 does, the unit holds at most one live backend object, never creates, changes
 or deletes another one, and a clean unit's handle was compiled from its
 current type and source.
 Also the scenarios a user of the unit relies on.
 */
module Lifecycle {
  import opened GLBackend
  import opened VtkShader

  /** One call a client makes on a shader unit. */
  datatype Op =
    | SetTypeOp(t: ShaderType)
    | SetSourceOp(text: string)
    | CompileOp(reply: DriverReply)
    | CleanupOp

  /** The effect of one call on the unit and the backend. */
  function Apply(build: Build, u: ShaderState, g: GL, op: Op): (r: (ShaderState, GL))
    requires g.Valid()
    ensures r.1.Valid() && g.calls <= r.1.calls
    ensures r.1.shaders - Owned(r.0) == g.shaders - Owned(u)
    ensures r.1.Live() - Owned(r.0) == g.Live() - Owned(u)
    ensures Inv(build, u, g) ==> Inv(build, r.0, r.1)
  {
    match op
    case SetTypeOp(t) => (SetTypeStep(build, u, t, g), g)
    case SetSourceOp(text) => (SetSourceStep(build, u, text, g), g)
    case CompileOp(reply) => var o := CompileStep(build, u, g, reply); (o.unit, o.gl)
    case CleanupOp => CleanupStep(build, u, g)
  }

  /** The effect of a sequence of calls, in order. */
  function Run(build: Build, u: ShaderState, g: GL, ops: seq<Op>): (r: (ShaderState, GL))
    requires g.Valid()
    ensures r.1.Valid() && g.calls <= r.1.calls
    decreases |ops|
  {
    if ops == [] then (u, g)
    else
      var (u1, g1) := Apply(build, u, g, ops[0]);
      Run(build, u1, g1, ops[1..])
  }

  /** Over any call sequence the invariant is kept, and the live objects the
      unit does not hold are exactly what they were, records included: the unit
      creates at most the one object it holds, releases only objects it held,
      and changes no other object. */
  lemma {:induction false} RunConfinesHandles(build: Build, u: ShaderState, g: GL, ops: seq<Op>)
    requires g.Valid() && Inv(build, u, g)
    ensures var (u', g') := Run(build, u, g, ops);
              && Inv(build, u', g')
              && Owned(u') <= g'.Live()
              && g'.shaders - Owned(u') == g.shaders - Owned(u)
              && g'.Live() - Owned(u') == g.Live() - Owned(u)
    decreases |ops|
  {
    if ops != [] {
      var (u1, g1) := Apply(build, u, g, ops[0]);
      RunConfinesHandles(build, u1, g1, ops[1..]);
    }
  }

  /** A newly constructed unit, whatever is done with it, leaves the backend
      with the objects it had, unchanged, plus at most one new one, which the
      unit holds; and a clean unit's object was compiled from its current type
      and source. */
  lemma NoLeakFromNewUnit(build: Build, g: GL, ops: seq<Op>)
    requires g.Valid()
    ensures var (u', g') := Run(build, Initial(), g, ops);
              && g'.shaders - Owned(u') == g.shaders
              && g'.Live() == g.Live() + Owned(u')
              && Owned(u') !! g.Live()
              && (!u'.dirty ==> && u'.handle in g'.shaders
                                && g'.shaders[u'.handle].compiled
                                && g'.shaders[u'.handle].stage == StageFor(build, u'.shaderType)
                                && g'.shaders[u'.handle].source == CString(u'.source))
  {
    RunConfinesHandles(build, Initial(), g, ops);
    var (u', g') := Run(build, Initial(), g, ops);
    assert Owned(Initial()) == {};
    SplitOwned(g'.Live(), Owned(u'), g.Live());
  }

  /** A set that contains `mine` and is `others` once `mine` is removed is
      exactly `others` plus `mine`, and the two do not overlap. */
  lemma SplitOwned(all: set<nat>, mine: set<nat>, others: set<nat>)
    requires mine <= all && all - mine == others
    ensures all == others + mine && mine !! others
  {
  }

  /** On a backend that had no objects, the unit's own handle is the only live
      object after any call sequence. */
  lemma AtMostOneLiveObject(build: Build, ops: seq<Op>)
    ensures var (u', g') := Run(build, Initial(), Pristine(), ops);
              && g'.Live() == Owned(u')
              && |g'.Live()| <= 1
  {
    NoLeakFromNewUnit(build, Pristine(), ops);
  }

  /** Right after a successful compile, compiling again is refused whatever the
      driver would say, and changes nothing. */
  lemma SecondCompileIsNoOp(build: Build, u: ShaderState, g: GL, first: DriverReply, second: DriverReply)
    requires g.Valid()
    requires CompileStep(build, u, g, first).ok
    ensures var r1 := CompileStep(build, u, g, first);
            CompileStep(build, r1.unit, r1.gl, second) == Outcome(r1.unit, r1.gl, false)
  {
  }

  /** A failed compile leaves the unit dirty, so compiling again with the same
      type and source re-runs the whole creation and compilation. */
  lemma RetryAfterFailureRuns(build: Build, u: ShaderState, g: GL, reply: DriverReply)
    requires g.Valid() && !SkipsCompile(u)
    requires !CompileStep(build, u, g, reply).ok
    ensures !SkipsCompile(CompileStep(build, u, g, reply).unit)
  {
  }

  /** A setter called after a successful compile marks the unit dirty but keeps
      the compiled handle live: holding a handle does not mean being clean. */
  lemma SetterKeepsCompiledHandle(build: Build, u: ShaderState, g: GL, reply: DriverReply, text: string)
    requires g.Valid() && CompileStep(build, u, g, reply).ok
    ensures var r := CompileStep(build, u, g, reply);
            var u' := SetSourceStep(build, r.unit, text, r.gl);
              u'.dirty && u'.handle == r.unit.handle && u'.handle in r.gl.Live()
  {
  }

  /** `Cleanup` of a unit whose type was set back to Unknown does nothing, even
      though the unit still holds a live compiled object. */
  lemma CleanupOfUnknownKeepsHandle(build: Build, u: ShaderState, g: GL, reply: DriverReply)
    requires g.Valid() && CompileStep(build, u, g, reply).ok
    ensures var r := CompileStep(build, u, g, reply);
            var u1 := SetTypeStep(build, r.unit, Unknown, r.gl);
            var (u2, g2) := CleanupStep(build, u1, r.gl);
              && u2.handle == r.unit.handle != 0
              && u2.handle in g2.Live()
              && g2 == r.gl
  {
  }

  /** A compiled unit, once cleaned up, compiles again from the same type and
      source when the driver accepts it. */
  lemma CleanupThenRecompile(build: Build, u: ShaderState, g: GL, first: DriverReply, second: DriverReply)
    requires g.Valid() && CompileStep(build, u, g, first).ok
    requires !second.createFails && second.compile.status
    ensures var r1 := CompileStep(build, u, g, first);
            var (u2, g2) := CleanupStep(build, r1.unit, r1.gl);
            var r3 := CompileStep(build, u2, g2, second);
              && u2.dirty && u2.handle == 0 && r1.unit.handle !in g2.Live()
              && r3.ok && r3.unit.handle != 0 && !r3.unit.dirty
              && r3.unit.shaderType == u.shaderType && r3.unit.source == u.source
  {
  }

  /** A vertex shader that compiles, then a broken source: the second compile
      fails, starts by deleting the first object, and holds no handle. The
      first object's name is deleted once, or twice when the driver gave it
      again to the object created for the broken source. */
  lemma BrokenSourceAfterSuccess(build: Build, g: GL, good: string, broken: string, first: DriverReply, second: DriverReply)
    requires g.Valid() && good != [] && broken != []
    requires !first.createFails && first.compile.status
    requires !second.createFails && !second.compile.status
    ensures var u0 := SetSourceStep(build, SetTypeStep(build, Initial(), Vertex, g), good, g);
            var r1 := CompileStep(build, u0, g, first);
            var u2 := SetSourceStep(build, r1.unit, broken, r1.gl);
            var r3 := CompileStep(build, u2, r1.gl, second);
              && r1.ok && r1.unit.handle != 0
              && r1.gl.shaders[r1.unit.handle].stage == VertexShader
              && u2.dirty
              && !r3.ok && r3.unit.handle == 0 && r3.unit.dirty
              && r1.unit.handle !in r3.gl.Live()
              && r1.gl.calls + [DeleteShader(r1.unit.handle)] <= r3.gl.calls
              && multiset(CallsSince(r1.gl, r3.gl))[DeleteShader(r1.unit.handle)]
                   == (if CreatedHandle(build, u2, r1.gl, second) == r1.unit.handle then 2 else 1)
              && r3.gl.Live() == g.Live()
              && (second.compile.logLength > 1 ==> r3.unit.error == second.compile.log)
  {
    var u0 := SetSourceStep(build, SetTypeStep(build, Initial(), Vertex, g), good, g);
    var r1 := CompileStep(build, u0, g, first);
    var u2 := SetSourceStep(build, r1.unit, broken, r1.gl);
    CompileReleasesOldHandleFirst(build, u2, r1.gl, second);
  }

  /** With type Unknown, `Compile` fails and makes no backend call whatever the
      source says. */
  lemma UnknownTypeNeverCompiles(build: Build, u: ShaderState, g: GL, reply: DriverReply)
    requires g.Valid() && u.shaderType == Unknown
    ensures CompileStep(build, u, g, reply) == Outcome(u, g, false)
  {
  }

  /** `Compile` tests the whole text for emptiness, but the driver reads it only
      up to its first NUL: a text that starts with NUL passes the guard and an
      empty source is compiled. */
  lemma LeadingNulSubmitsEmptyText(build: Build, u: ShaderState, g: GL, reply: DriverReply)
    requires g.Valid() && u.source != [] && u.source[0] == '\0'
    requires u.shaderType != Unknown && u.dirty
    requires CompileStep(build, u, g, reply).ok
    ensures var r := CompileStep(build, u, g, reply);
              !SkipsCompile(u) && r.gl.shaders[r.unit.handle].source == []
  {
    CompileSuccess(build, u, g, reply);
  }
}
