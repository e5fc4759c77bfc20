/**
 An abstract OpenGL shader-object backend.

 The driver is modelled by the shader objects it currently holds (keyed by their
 nonzero handle) and by the list of calls made to it, so that contracts can say
 which calls a client made and in which order. What the real driver decides on
 its own -- whether `glCreateShader` fails and which free name it returns,
 whether compilation succeeds, what the info log says -- is passed in by the
 caller as an oracle value.
 */
module GLBackend {

  /** The native shader-stage constants handed to `glCreateShader`. */
  datatype Stage = VertexShader | FragmentShader | GeometryShader | ComputeShader

  /** What the driver reports after `glCompileShader`: the compile status, the
      value of `GL_INFO_LOG_LENGTH` and the text of the info log. */
  datatype CompileReply = CompileReply(status: bool, logLength: int, log: string)

  /** One live shader object inside the driver. */
  datatype ShaderRecord = ShaderRecord(stage: Stage, source: string, compiled: bool, logLength: int, log: string)

  /** A fresh object, as `glCreateShader` makes it: no source, not compiled, no log. */
  function FreshRecord(stage: Stage): ShaderRecord
  {
    ShaderRecord(stage, "", false, 0, "")
  }

  /** The backend entry points a client can call, with their arguments. */
  datatype Call =
    | CreateShader(stage: Stage, result: nat)
    | ShaderSource(handle: nat, text: string)
    | CompileShader(handle: nat)
    | GetCompileStatus(handle: nat)
    | GetInfoLogLength(handle: nat)
    | GetInfoLog(handle: nat)
    | DeleteShader(handle: nat)

  /** The text a driver reads from a NUL-terminated C string:
      `s` up to, not including, its first NUL character. */
  function CString(s: string): (c: string)
    ensures c <= s && '\0' !in c
    ensures |c| < |s| ==> s[|c|] == '\0'
    ensures '\0' !in s ==> c == s
  {
    if s == [] || s[0] == '\0' then [] else [s[0]] + CString(s[1..])
  }

  /** The live names at or above `n`. */
  function NamesFrom(live: set<nat>, n: nat): set<nat>
  {
    set k | k in live && n <= k
  }

  /** The least name at or above `n` that no live object has. */
  function FreeName(live: set<nat>, n: nat): (h: nat)
    ensures n <= h && h !in live
    ensures forall k :: n <= k < h ==> k in live
    decreases |NamesFrom(live, n)|
  {
    if n !in live then n
    else
      FewerNamesAbove(live, n);
      FreeName(live, n + 1)
  }

  /** Moving past a live name leaves fewer live names to skip. */
  lemma FewerNamesAbove(live: set<nat>, n: nat)
    requires n in live
    ensures |NamesFrom(live, n + 1)| < |NamesFrom(live, n)|
  {
    assert NamesFrom(live, n) == NamesFrom(live, n + 1) + {n};
  }

  /** The driver's state as a value: the live objects and every call made so far. */
  datatype GL = GL(shaders: map<nat, ShaderRecord>, calls: seq<Call>) {

    /** 0 is never the handle of an object. */
    predicate Valid()
    {
      0 !in shaders
    }

    /** The handles of the live shader objects. */
    function Live(): set<nat>
    {
      shaders.Keys
    }

    /** `glCreateShader(stage)`: returns 0 when the driver cannot create an
        object, otherwise a name no live object has -- possibly one that an
        earlier `glDeleteShader` freed -- now bound to a fresh object of that
        stage. Which free name the driver picks is its own choice: it is the
        least free name at or above `pick`, so every nonzero free name is the
        answer for some `pick`. */
    function Create(stage: Stage, fails: bool, pick: nat): (r: (GL, nat))
      requires Valid()
      ensures r.0.Valid()
      ensures r.1 == 0 <==> fails
      ensures r.1 == 0 ==> r.0.shaders == shaders
      ensures r.1 != 0 ==> r.1 !in Live() && r.0.Live() == Live() + {r.1}
      ensures r.1 != 0 ==> r.0.shaders == shaders[r.1 := FreshRecord(stage)]
      ensures !fails && pick != 0 && pick !in Live() ==> r.1 == pick
      ensures r.0.calls == calls + [CreateShader(stage, r.1)]
    {
      if fails then
        (this.(calls := calls + [CreateShader(stage, 0)]), 0)
      else
        var h := FreeName(Live(), if pick == 0 then 1 else pick);
        (GL(shaders[h := FreshRecord(stage)], calls + [CreateShader(stage, h)]), h)
    }

    /** `glShaderSource(h, 1, &text, nullptr)`: with no lengths given, the
        driver reads the text as a NUL-terminated string and replaces the
        object's source with it. */
    function SetSource(h: nat, text: string): (r: GL)
      requires Valid() && h in shaders
      ensures r.Valid() && r.Live() == Live()
      ensures r.shaders == shaders[h := shaders[h].(source := CString(text))]
      ensures r.calls == calls + [ShaderSource(h, CString(text))]
    {
      GL(shaders[h := shaders[h].(source := CString(text))], calls + [ShaderSource(h, CString(text))])
    }

    /** `glCompileShader(h)`: the driver's verdict `reply` is recorded in the object. */
    function Compile(h: nat, reply: CompileReply): (r: GL)
      requires Valid() && h in shaders
      ensures r.Valid() && r.Live() == Live()
      ensures r.shaders[h] == ShaderRecord(shaders[h].stage, shaders[h].source, reply.status, reply.logLength, reply.log)
      ensures r.shaders == shaders[h := r.shaders[h]]
      ensures r.calls == calls + [CompileShader(h)]
    {
      var s := shaders[h];
      GL(shaders[h := ShaderRecord(s.stage, s.source, reply.status, reply.logLength, reply.log)],
         calls + [CompileShader(h)])
    }

    /** A query (`glGetShaderiv`, `glGetShaderInfoLog`): only recorded, the
        objects are untouched. */
    function Query(c: Call): (r: GL)
      requires c.GetCompileStatus? || c.GetInfoLogLength? || c.GetInfoLog?
      ensures r.shaders == shaders
      ensures r.calls == calls + [c]
    {
      this.(calls := calls + [c])
    }

    /** `glDeleteShader(h)`: the object with that handle is no longer live;
        every other object is untouched. */
    function Delete(h: nat): (r: GL)
      requires Valid()
      ensures r.Valid() && r.Live() == Live() - {h}
      ensures r.shaders == shaders - {h}
      ensures r.calls == calls + [DeleteShader(h)]
    {
      GL(shaders - {h}, calls + [DeleteShader(h)])
    }
  }

  /** A backend with no live object that has not been called yet. */
  function Pristine(): (g: GL)
    ensures g.Valid() && g.Live() == {} && g.calls == []
  {
    GL(map[], [])
  }

  /** The driver of the graphics context current on the calling thread. */
  class Backend {
    var shaders: map<nat, ShaderRecord>
    var calls: seq<Call>

    function Value(): GL
      reads this
    {
      GL(shaders, calls)
    }

    ghost predicate Valid()
      reads this
    {
      Value().Valid()
    }

    constructor ()
      ensures Valid() && Value() == Pristine()
    {
      shaders, calls := map[], [];
    }

    method GlCreateShader(stage: Stage, fails: bool, pick: nat) returns (h: nat)
      requires Valid()
      modifies this
      ensures Valid()
      ensures (Value(), h) == old(Value()).Create(stage, fails, pick)
    {
      if fails {
        h := 0;
      } else {
        h := FreeName(shaders.Keys, if pick == 0 then 1 else pick);
        shaders := shaders[h := FreshRecord(stage)];
      }
      calls := calls + [CreateShader(stage, h)];
    }

    method GlShaderSource(h: nat, text: string)
      requires Valid() && h in shaders
      modifies this
      ensures Valid()
      ensures Value() == old(Value()).SetSource(h, text)
    {
      shaders := shaders[h := shaders[h].(source := CString(text))];
      calls := calls + [ShaderSource(h, CString(text))];
    }

    method GlCompileShader(h: nat, reply: CompileReply)
      requires Valid() && h in shaders
      modifies this
      ensures Valid()
      ensures Value() == old(Value()).Compile(h, reply)
    {
      var s := shaders[h];
      shaders := shaders[h := ShaderRecord(s.stage, s.source, reply.status, reply.logLength, reply.log)];
      calls := calls + [CompileShader(h)];
    }

    /** `glGetShaderiv(h, GL_COMPILE_STATUS, ...)`. */
    method GlGetCompileStatus(h: nat) returns (status: bool)
      requires Valid() && h in shaders
      modifies this
      ensures Valid()
      ensures Value() == old(Value()).Query(GetCompileStatus(h))
      ensures status == shaders[h].compiled
    {
      calls := calls + [GetCompileStatus(h)];
      status := shaders[h].compiled;
    }

    /** `glGetShaderiv(h, GL_INFO_LOG_LENGTH, ...)`. */
    method GlGetInfoLogLength(h: nat) returns (length: int)
      requires Valid() && h in shaders
      modifies this
      ensures Valid()
      ensures Value() == old(Value()).Query(GetInfoLogLength(h))
      ensures length == shaders[h].logLength
    {
      calls := calls + [GetInfoLogLength(h)];
      length := shaders[h].logLength;
    }

    /** `glGetShaderInfoLog(h, ...)`. */
    method GlGetInfoLog(h: nat) returns (log: string)
      requires Valid() && h in shaders
      modifies this
      ensures Valid()
      ensures Value() == old(Value()).Query(GetInfoLog(h))
      ensures log == shaders[h].log
    {
      calls := calls + [GetInfoLog(h)];
      log := shaders[h].log;
    }

    method GlDeleteShader(h: nat)
      requires Valid()
      modifies this
      ensures Valid()
      ensures Value() == old(Value()).Delete(h)
    {
      shaders := shaders - {h};
      calls := calls + [DeleteShader(h)];
    }
  }
}
