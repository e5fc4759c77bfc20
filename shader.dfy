/**
 The shader unit: one GPU shader object with its type, source text, backend
 handle, dirty flag and last error message.

 The value-level functions (`CompileStep`, `CleanupStep`, ...) say what each
 operation does to the unit's fields and to the backend; the class `Shader`
 carries out the same operations step by step on its fields, making the
 backend calls of `vtkShader.cxx` in the same order, and is proved to agree
 with them.
 */
module VtkShader {
  import opened GLBackend

  /** The shader kinds a unit can be set to. */
  datatype ShaderType = Unknown | Vertex | Fragment | Geometry | Compute

  /** Which optional stage constants the OpenGL headers define
      (`GL_GEOMETRY_SHADER`, `GL_COMPUTE_SHADER`); fixed when the library is built. */
  datatype Build = Build(geometryStage: bool, computeStage: bool)

  /** The five fields of a shader unit. A handle of 0 means no backend object. */
  datatype ShaderState = ShaderState(shaderType: ShaderType, source: string, handle: nat, dirty: bool, error: string)

  /** What `Compile` leaves behind: the unit, the backend, and the returned flag. */
  datatype Outcome = Outcome(unit: ShaderState, gl: GL, ok: bool)

  /** The driver's side of one `Compile` call: whether `glCreateShader` returns 0,
      which free name it returns otherwise (see `GL.Create`), and what compiling
      the source reports. */
  datatype DriverReply = DriverReply(createFails: bool, pick: nat, compile: CompileReply)

  const CreateFailedMessage: string := "Could not create shader object."

  /** A newly constructed unit: no type, no source, no handle, dirty. */
  function Initial(): (u: ShaderState)
    ensures u.dirty && u.handle == 0 && u.shaderType == Unknown
  {
    ShaderState(Unknown, "", 0, true, "")
  }

  /** The backend object the unit holds, as a set of at most one handle. */
  function Owned(u: ShaderState): (s: set<nat>)
    ensures |s| <= 1 && 0 !in s
    ensures u.handle in s <==> u.handle != 0
  {
    if u.handle == 0 then {} else {u.handle}
  }

  /** The native stage `Compile` asks for. Fragment has its own stage; Geometry
      and Compute have theirs only when the headers define them; everything
      else, including Unknown, is a vertex shader. */
  function StageFor(build: Build, t: ShaderType): (s: Stage)
    ensures s == FragmentShader <==> t == Fragment
    ensures s == GeometryShader <==> t == Geometry && build.geometryStage
    ensures s == ComputeShader <==> t == Compute && build.computeStage
    ensures s == VertexShader <==> (|| t in {Vertex, Unknown}
                                    || (t == Geometry && !build.geometryStage)
                                    || (t == Compute && !build.computeStage))
  {
    match t
    case Geometry => if build.geometryStage then GeometryShader else VertexShader
    case Compute => if build.computeStage then ComputeShader else VertexShader
    case Fragment => FragmentShader
    case _ => VertexShader
  }

  /** The guard at the top of `Compile`: nothing is done for an empty source,
      an unknown type, or a unit that is not dirty. */
  predicate SkipsCompile(u: ShaderState)
  {
    u.source == [] || u.shaderType == Unknown || !u.dirty
  }

  /** What holds between a unit and the backend between operations: a handle the
      unit holds is live and compiled, and a clean unit holds a handle compiled
      from its current type and source (as far as the driver reads it, up to a
      NUL). A dirty unit may still hold a handle. */
  predicate Inv(build: Build, u: ShaderState, g: GL)
  {
    && (u.handle != 0 ==> u.handle in g.shaders && g.shaders[u.handle].compiled)
    && (!u.dirty ==>
          && u.handle != 0
          && g.shaders[u.handle].stage == StageFor(build, u.shaderType)
          && g.shaders[u.handle].source == CString(u.source))
  }

  /** `SetType`: stores the type and marks the unit dirty, nothing else. */
  function SetTypeStep(build: Build, u: ShaderState, t: ShaderType, g: GL): (r: ShaderState)
    ensures r.shaderType == t && r.dirty
    ensures r.source == u.source && r.handle == u.handle && r.error == u.error
    ensures Inv(build, u, g) ==> Inv(build, r, g)
  {
    u.(shaderType := t, dirty := true)
  }

  /** `SetSource`: stores the text and marks the unit dirty, nothing else. */
  function SetSourceStep(build: Build, u: ShaderState, text: string, g: GL): (r: ShaderState)
    ensures r.source == text && r.dirty
    ensures r.shaderType == u.shaderType && r.handle == u.handle && r.error == u.error
    ensures Inv(build, u, g) ==> Inv(build, r, g)
  {
    u.(source := text, dirty := true)
  }

  /** The calls made to the backend between two of its states. */
  function CallsSince(g: GL, g': GL): seq<Call>
    requires g.calls <= g'.calls
  {
    g'.calls[|g.calls|..]
  }

  /** The first step of `Compile` past its guard: a handle the unit holds is
      deleted and forgotten, so that it never holds two. */
  function Release(u: ShaderState, g: GL): (r: (ShaderState, GL))
    requires g.Valid()
    ensures r.0 == u.(handle := 0)
    ensures r.1 == GL(g.shaders - Owned(u), g.calls + ReleaseCalls(u.handle))
    ensures r.1.Valid() && r.1.Live() == g.Live() - Owned(u)
  {
    if u.handle != 0 then (u.(handle := 0), g.Delete(u.handle)) else (u, g)
  }

  /** The calls `Release` makes: one delete of the held handle, if any. */
  function ReleaseCalls(held: nat): (cs: seq<Call>)
    ensures |cs| == if held != 0 then 1 else 0
  {
    if held != 0 then [DeleteShader(held)] else []
  }

  /** The calls `Compile` makes once `glCreateShader` returned the live handle
      `h`: submit and compile the source, ask for the status, and on failure
      read the log length, the log when that length exceeds one, and delete `h`. */
  function CompileCalls(h: nat, text: string, reply: CompileReply): seq<Call>
  {
    var submitted := [ShaderSource(h, CString(text)), CompileShader(h), GetCompileStatus(h)];
    if reply.status then submitted
    else
      var queried := if reply.logLength > 1 then [GetInfoLogLength(h), GetInfoLog(h)] else [GetInfoLogLength(h)];
      submitted + queried + [DeleteShader(h)]
  }

  /** After creation, `Compile` only addresses the new handle, and deletes it
      exactly once, as its last call, precisely when compilation failed. */
  lemma CompileCallsAddressNewHandle(h: nat, text: string, reply: CompileReply)
    ensures var cs := CompileCalls(h, text, reply);
              && (forall i :: 0 <= i < |cs| ==> !cs[i].CreateShader? && cs[i].handle == h)
              && multiset(cs)[DeleteShader(h)] == (if reply.status then 0 else 1)
              && (!reply.status ==> cs[|cs| - 1] == DeleteShader(h))
  {
    var cs := CompileCalls(h, text, reply);
    if reply.status {
      assert DeleteShader(h) !in cs;
    } else {
      // only the last call is a delete
      var pre := cs[..|cs| - 1];
      assert cs == pre + [DeleteShader(h)];
      assert DeleteShader(h) !in pre;
      assert multiset(cs) == multiset(pre) + multiset{DeleteShader(h)};
    }
  }

  /** The end of `Compile`, once `glCreateShader` returned the live handle `h`:
      submit the source, compile, and keep `h` only if compilation succeeded. */
  function CompileCreated(u: ShaderState, g: GL, h: nat, reply: CompileReply): (r: Outcome)
    requires g.Valid() && h in g.shaders
    ensures r.ok == reply.status
    ensures r.unit == if reply.status then u.(handle := h, dirty := false)
                      else u.(error := if reply.logLength > 1 then reply.log else u.error)
    ensures r.gl.Valid()
    ensures r.gl.Live() == if reply.status then g.Live() else g.Live() - {h}
    ensures r.gl.shaders == if reply.status
                            then g.shaders[h := ShaderRecord(g.shaders[h].stage, CString(u.source), true, reply.logLength, reply.log)]
                            else g.shaders - {h}
    ensures r.gl.calls == g.calls + CompileCalls(h, u.source, reply)
  {
    var g1 := g.SetSource(h, u.source).Compile(h, reply).Query(GetCompileStatus(h));
    var submitted := [ShaderSource(h, CString(u.source)), CompileShader(h), GetCompileStatus(h)];
    assert g1.calls == g.calls + submitted;
    if !g1.shaders[h].compiled then
      var hasLog := g1.shaders[h].logLength > 1;
      var queried := if hasLog then [GetInfoLogLength(h), GetInfoLog(h)] else [GetInfoLogLength(h)];
      var g2 := g1.Query(GetInfoLogLength(h));
      var g3 := if hasLog then g2.Query(GetInfoLog(h)) else g2;
      assert g3.calls == g1.calls + queried;
      var r := Outcome(u.(error := if hasLog then g1.shaders[h].log else u.error), g3.Delete(h), false);
      assert CompileCalls(h, u.source, reply) == submitted + queried + [DeleteShader(h)];
      r
    else
      Outcome(u.(handle := h, dirty := false), g1, true)
  }

  /** `CompileCreated` as the backend calls it is made of, one at a time. */
  lemma CompileCreatedSteps(u: ShaderState, g: GL, h: nat, reply: CompileReply)
    requires g.Valid() && h in g.shaders
    ensures var g1 := g.SetSource(h, u.source).Compile(h, reply).Query(GetCompileStatus(h));
            var g2 := g1.Query(GetInfoLogLength(h));
            var g3 := if reply.logLength > 1 then g2.Query(GetInfoLog(h)) else g2;
              && g1.shaders[h].compiled == reply.status
              && g1.shaders[h].logLength == reply.logLength
              && g1.shaders[h].log == reply.log
              && CompileCreated(u, g, h, reply)
                   == if reply.status then Outcome(u.(handle := h, dirty := false), g1, true)
                      else Outcome(u.(error := if reply.logLength > 1 then reply.log else u.error), g3.Delete(h), false)
  {
  }

  /** `Compile`: past the guard, release the held handle, create an object for
      the mapped stage, and keep it only if it compiled. The unit's type and
      source are never changed, and the unit never holds more than one object. */
  function CompileStep(build: Build, u: ShaderState, g: GL, reply: DriverReply): (r: Outcome)
    requires g.Valid()
    // the guard: no state change and no backend call at all
    ensures SkipsCompile(u) ==> r == Outcome(u, g, false)
    ensures r.ok <==> !SkipsCompile(u) && !reply.createFails && reply.compile.status
    // the inputs are never touched; the backend is only called, never rewound
    ensures r.unit.shaderType == u.shaderType && r.unit.source == u.source
    ensures r.gl.Valid() && g.calls <= r.gl.calls
    // the unit owns at most its one handle; every other live object is left alone
    ensures r.gl.shaders - Owned(r.unit) == g.shaders - Owned(u)
    ensures r.gl.Live() - Owned(r.unit) == g.Live() - Owned(u)
    ensures Owned(u) <= g.Live() ==> Owned(r.unit) <= r.gl.Live()
    ensures Inv(build, u, g) ==> Inv(build, r.unit, r.gl)
  {
    if SkipsCompile(u) then Outcome(u, g, false)
    else
      var (u1, g1) := Release(u, g);
      var (g2, h) := g1.Create(StageFor(build, u.shaderType), reply.createFails, reply.pick);
      if h == 0 then
        Outcome(u1.(error := CreateFailedMessage), g2, false)
      else
        var r := CompileCreated(u1, g2, h, reply.compile);
        assert h !in g1.Live();
        assert r.gl.Live() - Owned(r.unit) == g1.Live();
        r
  }

  /** `CompileStep` past its guard, as `Release`, `Create` and `CompileCreated`. */
  lemma CompileStepPastGuard(build: Build, u: ShaderState, g: GL, reply: DriverReply)
    requires g.Valid() && !SkipsCompile(u)
    ensures var (u1, g1) := Release(u, g);
            var (g2, h) := g1.Create(StageFor(build, u.shaderType), reply.createFails, reply.pick);
              CompileStep(build, u, g, reply)
                == if h == 0 then Outcome(u1.(error := CreateFailedMessage), g2, false)
                   else CompileCreated(u1, g2, h, reply.compile)
  {
  }

  /** A successful `Compile` holds a handle that no other object had before --
      it is new, or the name the unit itself just released -- compiled from the
      unit's current type and source; the unit is clean and its error text is
      left as it was. */
  lemma CompileSuccess(build: Build, u: ShaderState, g: GL, reply: DriverReply)
    requires g.Valid() && CompileStep(build, u, g, reply).ok
    ensures var r := CompileStep(build, u, g, reply);
              && r.unit.handle != 0 && !r.unit.dirty
              && (r.unit.handle in g.Live() ==> r.unit.handle == u.handle)
              && r.unit.error == u.error
              && r.unit.handle in r.gl.shaders
              && r.gl.shaders[r.unit.handle].stage == StageFor(build, u.shaderType)
              && r.gl.shaders[r.unit.handle].source == CString(u.source)
              && r.gl.shaders[r.unit.handle].compiled
  {
  }

  /** A `Compile` that fails past the guard leaves no handle, leaves the unit
      dirty and keeps no object live that the unit held or created. The error
      text is the fixed message when creation failed, the driver's log when
      compilation failed with a reported log length above one, and otherwise
      what it was. */
  lemma CompileFailure(build: Build, u: ShaderState, g: GL, reply: DriverReply)
    requires g.Valid() && !SkipsCompile(u) && !CompileStep(build, u, g, reply).ok
    ensures var r := CompileStep(build, u, g, reply);
              && r.unit.handle == 0 && r.unit.dirty
              && r.gl.Live() == g.Live() - Owned(u)
              && (reply.createFails ==> r.unit.error == CreateFailedMessage)
              && (!reply.createFails ==>
                    r.unit.error == if reply.compile.logLength > 1 then reply.compile.log else u.error)
  {
  }

  /** The handle `glCreateShader` returns inside `Compile` (0 on failure). */
  function CreatedHandle(build: Build, u: ShaderState, g: GL, reply: DriverReply): nat
    requires g.Valid()
  {
    Release(u, g).1.Create(StageFor(build, u.shaderType), reply.createFails, reply.pick).1
  }

  /** The handle `glCreateShader` returns inside `Compile` is 0 or a name no
      live object has once the held handle is released: it is never the handle
      of an object the unit does not hold. */
  lemma CreatedHandleIsNew(build: Build, u: ShaderState, g: GL, reply: DriverReply)
    requires g.Valid()
    ensures var h := CreatedHandle(build, u, g, reply);
              && (h == 0 <==> reply.createFails)
              && (h != 0 ==> h !in g.Live() - Owned(u))
  {
  }

  /** The driver may hand back the name the unit released a moment before: the
      new object then has the old handle. */
  lemma ReleasedNameMayBeReused(build: Build, u: ShaderState, g: GL, reply: DriverReply)
    requires g.Valid() && u.handle in g.Live()
    requires !reply.createFails && reply.pick == u.handle
    ensures CreatedHandle(build, u, g, reply) == u.handle
  {
    var (u1, g1) := Release(u, g);
    assert u.handle !in g1.Live();
  }

  /** The calls `Compile` makes past its guard when `glCreateShader` returns `h`:
      delete the held handle if any, create an object of `stage`, and, if that
      returned a handle, submit, compile and query it (and delete it on failure). */
  function CompileTrace(held: nat, stage: Stage, h: nat, text: string, reply: CompileReply): seq<Call>
  {
    ReleaseCalls(held) + [CreateShader(stage, h)]
      + (if h != 0 then CompileCalls(h, text, reply) else [])
  }

  /** Past the guard, `Compile` makes exactly the calls of `CompileTrace`, in order. */
  lemma CompileCallOrder(build: Build, u: ShaderState, g: GL, reply: DriverReply)
    requires g.Valid() && !SkipsCompile(u)
    ensures var r := CompileStep(build, u, g, reply);
              CallsSince(g, r.gl)
                == CompileTrace(u.handle, StageFor(build, u.shaderType), CreatedHandle(build, u, g, reply),
                                u.source, reply.compile)
  {
    var r := CompileStep(build, u, g, reply);
    var (u1, g1) := Release(u, g);
    var stage := StageFor(build, u.shaderType);
    var (g2, h) := g1.Create(stage, reply.createFails, reply.pick);
    var front := ReleaseCalls(u.handle) + [CreateShader(stage, h)];
    assert g2.calls == g.calls + front;
    var rest := if h != 0 then CompileCalls(h, u.source, reply.compile) else [];
    if h == 0 {
      assert r.gl == g2;
    } else {
      assert r == CompileCreated(u1, g2, h, reply.compile);
    }
    assert r.gl.calls == g.calls + front + rest;
    AppendedCalls(g, r.gl, front, rest);
  }

  /** The calls made since `g` are exactly those appended to its list. */
  lemma AppendedCalls(g: GL, g': GL, front: seq<Call>, rest: seq<Call>)
    requires g'.calls == g.calls + front + rest
    ensures g.calls <= g'.calls && CallsSince(g, g') == front + rest
  {
    assert g'.calls == g.calls + (front + rest);
  }

  /** Once `h` is created, `Compile` never deletes any other handle. */
  lemma CompileCallsSpareOtherHandles(other: nat, h: nat, text: string, reply: CompileReply)
    requires other != h
    ensures DeleteShader(other) !in CompileCalls(h, text, reply)
  {
    CompileCallsAddressNewHandle(h, text, reply);
  }

  /** Once `h` is created, `Compile` deletes no handle but `h`, and `h` only
      when compilation failed. */
  lemma DeletesInCompileCalls(x: nat, h: nat, text: string, reply: CompileReply)
    ensures multiset(CompileCalls(h, text, reply))[DeleteShader(x)] == if x == h && !reply.status then 1 else 0
  {
    if x == h {
      CompileCallsAddressNewHandle(h, text, reply);
    } else {
      CompileCallsSpareOtherHandles(x, h, text, reply);
    }
  }

  /** How often `x` occurs in three joined sequences. */
  lemma CountJoined(a: seq<Call>, b: seq<Call>, c: seq<Call>, x: Call)
    ensures multiset(a + b + c)[x] == multiset(a)[x] + multiset(b)[x] + multiset(c)[x]
  {
    assert multiset(a + b + c) == multiset(a) + multiset(b) + multiset(c);
  }

  /** In the trace, a held handle is deleted by the first call. It is deleted
      once more, by the last call, exactly when the driver gave its name to
      the new object and compilation failed. */
  lemma TraceDeletesHeldHandleFirst(held: nat, stage: Stage, h: nat, text: string, reply: CompileReply)
    requires held != 0
    ensures var cs := CompileTrace(held, stage, h, text, reply);
              && cs[0] == DeleteShader(held)
              && multiset(cs)[DeleteShader(held)] == if h == held && !reply.status then 2 else 1
  {
    var release := ReleaseCalls(held);
    var rest := if h != 0 then CompileCalls(h, text, reply) else [];
    var x := DeleteShader(held);
    assert multiset(rest)[x] == if h == held && !reply.status then 1 else 0 by {
      if h != 0 {
        DeletesInCompileCalls(held, h, text, reply);
      }
    }
    assert multiset(release)[x] == 1 by {
      assert release == [x];
    }
    assert multiset([CreateShader(stage, h)])[x] == 0;
    CountJoined(release, [CreateShader(stage, h)], rest, x);
  }

  /** In the trace, the object is created right after the release, and when
      compilation fails the last call deletes it. */
  lemma TraceCreatesAfterRelease(held: nat, stage: Stage, h: nat, text: string, reply: CompileReply)
    requires h != 0
    ensures var cs := CompileTrace(held, stage, h, text, reply);
              && cs[if held != 0 then 1 else 0] == CreateShader(stage, h)
              && (!reply.status ==> cs[|cs| - 1] == DeleteShader(h))
  {
    var release := ReleaseCalls(held);
    var rest := CompileCalls(h, text, reply);
    var cs := CompileTrace(held, stage, h, text, reply);
    assert cs == release + [CreateShader(stage, h)] + rest;
    assert cs[|release|] == CreateShader(stage, h);
    if !reply.status {
      CompileCallsAddressNewHandle(h, text, reply);
      assert cs[|cs| - 1] == rest[|rest| - 1];
    }
  }

  /** In the trace of a failed compilation, the created handle is created right
      after the release and deleted by the last call. That is its only delete,
      unless the driver reused the released name, which is then deleted twice. */
  lemma TraceDeletesCreatedHandleLast(held: nat, stage: Stage, h: nat, text: string, reply: CompileReply)
    requires h != 0 && !reply.status
    ensures var cs := CompileTrace(held, stage, h, text, reply);
              && cs[if held != 0 then 1 else 0] == CreateShader(stage, h)
              && multiset(cs)[DeleteShader(h)] == (if h == held then 2 else 1)
              && cs[|cs| - 1] == DeleteShader(h)
  {
    TraceCreatesAfterRelease(held, stage, h, text, reply);
    var release := ReleaseCalls(held);
    var rest := CompileCalls(h, text, reply);
    var x := DeleteShader(h);
    assert multiset(rest)[x] == 1 by {
      DeletesInCompileCalls(h, h, text, reply);
    }
    assert multiset(release)[x] == if h == held then 1 else 0;
    assert multiset([CreateShader(stage, h)])[x] == 0;
    CountJoined(release, [CreateShader(stage, h)], rest, x);
  }

  /** Past the guard, the first backend call deletes the handle the unit held.
      No other call deletes it, unless the driver gave the same name to the new
      object and compilation failed: then the last call deletes it again. */
  lemma CompileReleasesOldHandleFirst(build: Build, u: ShaderState, g: GL, reply: DriverReply)
    requires g.Valid() && !SkipsCompile(u) && u.handle in g.Live()
    ensures var r := CompileStep(build, u, g, reply);
            var reused := CreatedHandle(build, u, g, reply) == u.handle;
              && g.calls + [DeleteShader(u.handle)] <= r.gl.calls
              && multiset(CallsSince(g, r.gl))[DeleteShader(u.handle)]
                   == if reused && !reply.compile.status then 2 else 1
  {
    var r := CompileStep(build, u, g, reply);
    var h := CreatedHandle(build, u, g, reply);
    CompileCallOrder(build, u, g, reply);
    TraceDeletesHeldHandleFirst(u.handle, StageFor(build, u.shaderType), h, u.source, reply.compile);
    FirstCallSince(g.calls, r.gl.calls, DeleteShader(u.handle));
  }

  /** A call list that extends `before` with `x` as its next call starts with `before + [x]`. */
  lemma FirstCallSince(before: seq<Call>, after: seq<Call>, x: Call)
    requires before <= after && |before| < |after| && after[|before|..][0] == x
    ensures before + [x] <= after
  {
    assert after[|before|] == x;
  }

  /** When compilation fails, the object just created is deleted by the last
      call and is no longer live: a failed compile leaks nothing. That is the
      only delete of its handle, unless the handle is the released name reused. */
  lemma FailedCompileDeletesNewHandle(build: Build, u: ShaderState, g: GL, reply: DriverReply)
    requires g.Valid() && !SkipsCompile(u)
    requires !reply.createFails && !reply.compile.status
    ensures var r := CompileStep(build, u, g, reply);
            var h := CreatedHandle(build, u, g, reply);
              && h != 0 && h !in r.gl.Live()
              && CallsSince(g, r.gl)[|Owned(u)|] == CreateShader(StageFor(build, u.shaderType), h)
              && multiset(CallsSince(g, r.gl))[DeleteShader(h)] == (if h == u.handle then 2 else 1)
              && CallsSince(g, r.gl)[|CallsSince(g, r.gl)| - 1] == DeleteShader(h)
  {
    CreatedHandleIsNew(build, u, g, reply);
    CompileCallOrder(build, u, g, reply);
    var h := CreatedHandle(build, u, g, reply);
    TraceDeletesCreatedHandleLast(u.handle, StageFor(build, u.shaderType), h, u.source, reply.compile);
  }

  /** `Cleanup`: releases the handle, unless the type is Unknown or there is none. */
  function CleanupStep(build: Build, u: ShaderState, g: GL): (r: (ShaderState, GL))
    requires g.Valid()
    ensures u.shaderType == Unknown || u.handle == 0 ==> r == (u, g)
    ensures u.shaderType != Unknown && u.handle != 0 ==>
              && r.0.handle == 0 && r.0.dirty
              && r.1.Live() == g.Live() - {u.handle}
              && r.1.calls == g.calls + [DeleteShader(u.handle)]
    ensures r.0.shaderType == u.shaderType && r.0.source == u.source && r.0.error == u.error
    ensures r.1.Valid() && r.1.shaders - Owned(r.0) == g.shaders - Owned(u)
    ensures r.1.Live() - Owned(r.0) == g.Live() - Owned(u)
    ensures Owned(u) <= g.Live() ==> Owned(r.0) <= r.1.Live()
    ensures Inv(build, u, g) ==> Inv(build, r.0, r.1)
  {
    if u.shaderType == Unknown || u.handle == 0 then (u, g)
    else (u.(handle := 0, dirty := true), g.Delete(u.handle))
  }

  /** A shader unit bound to the backend of the current graphics context. */
  class Shader {
    const gl: Backend
    const build: Build
    var shaderType: ShaderType
    var source: string
    var handle: nat
    var dirty: bool
    var error: string

    function State(): ShaderState
      reads this
    {
      ShaderState(shaderType, source, handle, dirty, error)
    }

    ghost predicate Valid()
      reads this, gl
    {
      gl.Valid() && Inv(build, State(), gl.Value())
    }

    constructor (gl: Backend, build: Build)
      requires gl.Valid()
      ensures Valid() && State() == Initial()
      ensures this.gl == gl && this.build == build
    {
      this.gl := gl;
      this.build := build;
      shaderType := Unknown;
      source := "";
      handle := 0;
      dirty := true;
      error := "";
    }

    method SetType(t: ShaderType)
      requires Valid()
      modifies this
      ensures Valid()
      ensures State() == SetTypeStep(build, old(State()), t, gl.Value())
    {
      shaderType := t;
      dirty := true;
    }

    method SetSource(text: string)
      requires Valid()
      modifies this
      ensures Valid()
      ensures State() == SetSourceStep(build, old(State()), text, gl.Value())
    {
      source := text;
      dirty := true;
    }

    method Compile(reply: DriverReply) returns (ok: bool)
      requires Valid()
      modifies this, gl
      ensures Outcome(State(), gl.Value(), ok) == CompileStep(build, old(State()), old(gl.Value()), reply)
      ensures Valid()
    {
      if source == [] || shaderType == Unknown || !dirty {
        return false;
      }
      ghost var before := (State(), gl.Value());
      CompileStepPastGuard(build, before.0, before.1, reply);

      // Release the previous object before creating a new one.
      if handle != 0 {
        gl.GlDeleteShader(handle);
        handle := 0;
      }
      ghost var released := (State(), gl.Value());
      assert released == Release(before.0, before.1);

      var stage := StageFor(build, shaderType);
      var h := gl.GlCreateShader(stage, reply.createFails, reply.pick);
      assert (gl.Value(), h) == released.1.Create(StageFor(build, before.0.shaderType), reply.createFails, reply.pick);
      if h == 0 {
        error := CreateFailedMessage;
        return false;
      }
      ok := CompileObject(h, reply.compile);
    }

    /** The rest of `Compile` once `glCreateShader` returned the live handle `h`:
        submit and compile the source, then keep `h` or report the log and
        delete it. */
    method CompileObject(h: nat, reply: CompileReply) returns (ok: bool)
      requires gl.Valid() && h in gl.shaders
      modifies this, gl
      ensures Outcome(State(), gl.Value(), ok) == CompileCreated(old(State()), old(gl.Value()), h, reply)
    {
      ghost var created := gl.Value();
      gl.GlShaderSource(h, source);
      gl.GlCompileShader(h, reply);
      var isCompiled := gl.GlGetCompileStatus(h);
      CompileCreatedSteps(old(State()), created, h, reply);
      if !isCompiled {
        var length := gl.GlGetInfoLogLength(h);
        if length > 1 {
          error := gl.GlGetInfoLog(h);
        }
        gl.GlDeleteShader(h);
        return false;
      }

      handle := h;
      dirty := false;
      return true;
    }

    method Cleanup()
      requires Valid()
      modifies this, gl
      ensures Valid()
      ensures (State(), gl.Value()) == CleanupStep(build, old(State()), old(gl.Value()))
    {
      if shaderType == Unknown || handle == 0 {
        return;
      }
      gl.GlDeleteShader(handle);
      handle := 0;
      dirty := true;
    }
  }
}
