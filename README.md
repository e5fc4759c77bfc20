# vtkShader: a verified model of one shader stage object

This project models `vtkShader`, the VTK OpenGL2 object that wraps one GPU
shader object. It has five fields: `ShaderType`, `Source`, `Handle`, `Dirty`
and `Error`. It has four operations: the two setters, `Compile` and
`Cleanup`. `Compile` is a guarded sequence of OpenGL calls. It deletes the
previous shader object, creates a new one for the mapped stage, submits and
compiles the source, then keeps the new handle or deletes it.

The project has three modules:

- `GLBackend` (gl_backend.dfy) is an abstract OpenGL driver. Its state is the
  set of live shader objects, keyed by a nonzero handle, plus the list of
  every call made to it. `GL` is that state as a value. It has one function
  each for `glCreateShader`, `glShaderSource`, `glCompileShader` and
  `glDeleteShader`. A single function, `Query`, stands for the three read-only
  queries: `glGetShaderiv` for the compile status, `glGetShaderiv` for the log
  length, and `glGetShaderInfoLog`. The class `Backend` holds the same state
  in fields, with one method per call the unit makes.
  `glCreateShader` returns 0 or any name no live object has. That includes a
  name freed by an earlier `glDeleteShader`, even the one the unit has just
  released. Which free name is returned is an input (`pick`): the driver
  returns the least free name at or above it, so every free name is a
  possible answer.
  `glShaderSource` is called without lengths, so the driver reads the text
  only up to its first NUL character (`CString`).
- `VtkShader` (shader.dfy) holds the class `Shader` with the five fields.
  Its methods make the calls of `vtkShader.cxx`, in the same order, on a
  `Backend`. Each method is proved equal to a value-level step function
  (`SetTypeStep`, `SetSourceStep`, `CompileStep`, `CleanupStep`), and the
  properties are proved about those functions. `Compile` is written as two
  methods. The second, `CompileObject`, holds the statements that run once
  the new object exists, and is proved equal to `CompileCreated`.
- `Lifecycle` (lifecycle.dfy) covers any sequence of calls on one unit. It
  proves that the unit holds at most one live object and never creates,
  changes or deletes an object it does not hold. It also holds the usage scenarios.

The driver decides some things on its own. These are inputs to `Compile`,
passed as a `DriverReply`:

- whether `glCreateShader` returns 0;
- which free name it returns otherwise;
- the compile status;
- the `GL_INFO_LOG_LENGTH` value;
- the log text.

The preprocessor tests `#ifdef GL_GEOMETRY_SHADER` and
`#ifdef GL_COMPUTE_SHADER` become the two flags of `Build`.

Behaviours of `vtkShader.cxx` a reader may not expect:

- The destructor is defaulted and releases nothing. A handle held at
  destruction stays live.
- `Handle != 0` does not imply `Dirty == false`. A setter called after a
  successful compile sets `Dirty` and keeps the compiled handle
  (`SetterKeepsCompiledHandle`). What does hold is the converse: a clean unit
  holds a live handle compiled from its current type and source (`Inv`).
- After a failed compilation `Error` keeps its previous value unless the reported
  log length is above one. It is not guaranteed to be non-empty.
- Stage lookup is not fallible. Geometry and Compute fall back to the vertex
  stage when the headers lack their constants, and so does Unknown.
- The guard tests the whole `Source` string for emptiness, but the driver reads
  it only up to its first NUL. A source that starts with NUL passes the guard
  and an empty text is compiled (`LeadingNulSubmitsEmptyText`).
- The new object may get the name of the object just released. If that
  compilation then fails, the same name is deleted twice in one `Compile`:
  first for the old object, then for the new one (`CompileReleasesOldHandleFirst`).

## Model

| member | source | states |
|---|---|---|
| VtkShader.Initial | Rendering/OpenGL2/vtkShader.cxx:12-17 | a new unit is dirty, holds no handle and has type Unknown |
| VtkShader.Shader.constructor | Rendering/OpenGL2/vtkShader.cxx:12-17 | the fields equal `Initial()` (source and error empty) and the object invariant holds |
| VtkShader.SetTypeStep | Rendering/OpenGL2/vtkShader.cxx:21-25 | the type is stored and the unit is dirty; source, handle and error are unchanged; the invariant against the backend is kept |
| VtkShader.Shader.SetType | Rendering/OpenGL2/vtkShader.cxx:21-25 | the new fields are `SetTypeStep` of the old ones; the backend is outside its frame, so no backend call is made |
| VtkShader.SetSourceStep | Rendering/OpenGL2/vtkShader.cxx:27-31 | the text is stored and the unit is dirty; type, handle and error are unchanged; the invariant is kept |
| VtkShader.Shader.SetSource | Rendering/OpenGL2/vtkShader.cxx:27-31 | the new fields are `SetSourceStep` of the old ones; no backend call |
| VtkShader.StageFor | Rendering/OpenGL2/vtkShader.cxx:47-68 | Fragment maps to the fragment stage; Geometry and Compute map to their own stage exactly when the build defines it; every other case maps to the vertex stage |
| GLBackend.CString | Rendering/OpenGL2/vtkShader.cxx:79-80 | the text the driver reads is a prefix of the string with no NUL, cut at the first NUL, and the whole string when it has none |
| VtkShader.Release | Rendering/OpenGL2/vtkShader.cxx:40-45 | a held handle is deleted from the backend and the unit's handle becomes 0; the only call is that delete |
| VtkShader.CompileCreated | Rendering/OpenGL2/vtkShader.cxx:79-105 | after creation: succeeds exactly when the driver reports success; on success the handle is stored, the unit is clean and the object holds the source up to its first NUL; on failure the object is deleted and `Error` is the log only when the log length is above 1 |
| VtkShader.CompileCallsAddressNewHandle | Rendering/OpenGL2/vtkShader.cxx:79-99 | after creation every call addresses the new handle; it is deleted exactly once, as the last call, exactly when compilation failed |
| VtkShader.CompileStep | Rendering/OpenGL2/vtkShader.cxx:33-106 | with empty source, Unknown type or a clean unit: returns false, changes nothing and calls nothing; returns true exactly when creation and compilation both succeed; type and source never change; every object the unit does not hold, before or after, keeps its handle and its record; the invariant is kept |
| VtkShader.Shader.Compile | Rendering/OpenGL2/vtkShader.cxx:33-77 | the fields, the backend state and the result are exactly `CompileStep` of the old state; the object invariant is kept |
| VtkShader.Shader.CompileObject | Rendering/OpenGL2/vtkShader.cxx:79-105 | once the object is created: the fields, the backend state and the result are exactly `CompileCreated` of the old state |
| VtkShader.CompileSuccess | Rendering/OpenGL2/vtkShader.cxx:101-105 | on success the handle is nonzero and was not live before, unless it is the name the unit itself released; the unit is clean; `Error` is unchanged; the object has the mapped stage, the current source up to its first NUL, and is compiled |
| VtkShader.CompileFailure | Rendering/OpenGL2/vtkShader.cxx:70-99 | on failure past the guard the handle is 0 and the unit still dirty; neither the old nor the new object stays live; `Error` is the fixed message if creation failed, else the log when its length is above 1, else unchanged |
| VtkShader.CreatedHandleIsNew | Rendering/OpenGL2/vtkShader.cxx:70 | the handle returned by the creation inside `Compile` is 0 exactly when creation fails, and otherwise is not the handle of any live object the unit does not hold |
| VtkShader.ReleasedNameMayBeReused | Rendering/OpenGL2/vtkShader.cxx:41-70 | the new object can get the name of the object released at the start of the same `Compile` |
| VtkShader.CompileCallOrder | Rendering/OpenGL2/vtkShader.cxx:40-99 | past the guard, the calls made are exactly `CompileTrace`: delete the held handle, create, then source, compile, status, and on failure log length, log (when the length is above 1) and delete |
| VtkShader.CompileCallsSpareOtherHandles | Rendering/OpenGL2/vtkShader.cxx:79-99 | after creation, no call deletes a handle other than the new one |
| VtkShader.DeletesInCompileCalls | Rendering/OpenGL2/vtkShader.cxx:79-99 | after creation, a handle is deleted once if it is the new one and compilation failed, and otherwise never |
| VtkShader.TraceCreatesAfterRelease | Rendering/OpenGL2/vtkShader.cxx:40-99 | in the trace, creation comes right after the release, and on a failed compilation the last call deletes the new handle |
| VtkShader.TraceDeletesHeldHandleFirst | Rendering/OpenGL2/vtkShader.cxx:40-99 | in the call trace, a held handle is deleted by the first call; it is deleted a second time exactly when the new object got the same name and compilation failed |
| VtkShader.TraceDeletesCreatedHandleLast | Rendering/OpenGL2/vtkShader.cxx:70-99 | in the trace of a failed compilation, the creation comes right after the release and the last call deletes the new handle; that name is deleted twice if it is the released name, otherwise once |
| VtkShader.CompileReleasesOldHandleFirst | Rendering/OpenGL2/vtkShader.cxx:40-99 | the first backend call deletes the held handle; it is deleted again only when the new object reuses its name and compilation fails, so the count is 2 then and 1 otherwise |
| VtkShader.FailedCompileDeletesNewHandle | Rendering/OpenGL2/vtkShader.cxx:86-99 | when compilation fails, the object just created comes right after the release, is deleted by the last call and is not live afterwards; its name is deleted once, or twice when it is the released name reused |
| VtkShader.CleanupStep | Rendering/OpenGL2/vtkShader.cxx:108-118 | no-op, with no call, when the type is Unknown or the handle is 0; otherwise exactly one delete of that handle, then handle 0 and dirty; type, source and error unchanged; every other object keeps its record; the invariant is kept |
| VtkShader.Shader.Cleanup | Rendering/OpenGL2/vtkShader.cxx:108-118 | the fields and backend state are exactly `CleanupStep` of the old ones |
| GLBackend.GL.Create | Rendering/OpenGL2/vtkShader.cxx:70 | returns 0 exactly when the driver fails, and then no object is added; otherwise a name no live object has (a freed one may come back), bound to a fresh object of the given stage; every free nonzero name is a possible answer |
| GLBackend.GL.SetSource | Rendering/OpenGL2/vtkShader.cxx:79-80 | only the object's source changes, to the text up to its first NUL; the set of live objects is the same |
| GLBackend.GL.Compile | Rendering/OpenGL2/vtkShader.cxx:81 | the object records the driver's status and log; the set of live objects is the same |
| GLBackend.GL.Query | Rendering/OpenGL2/vtkShader.cxx:83-93 | status and log queries are recorded and change no object |
| GLBackend.GL.Delete | Rendering/OpenGL2/vtkShader.cxx:97 | exactly that handle stops being live and the other objects are unchanged |
| GLBackend.Backend.GlCreateShader | Rendering/OpenGL2/vtkShader.cxx:70 | the backend state and the result are `GL.Create` of the old state |
| GLBackend.Backend.GlShaderSource | Rendering/OpenGL2/vtkShader.cxx:80 | the backend state becomes `GL.SetSource` of the old state |
| GLBackend.Backend.GlCompileShader | Rendering/OpenGL2/vtkShader.cxx:81 | the backend state becomes `GL.Compile` of the old state |
| GLBackend.Backend.GlGetCompileStatus | Rendering/OpenGL2/vtkShader.cxx:82-83 | returns the object's compile status; only the call is recorded |
| GLBackend.Backend.GlGetInfoLogLength | Rendering/OpenGL2/vtkShader.cxx:88-89 | returns the object's reported log length; only the call is recorded |
| GLBackend.Backend.GlGetInfoLog | Rendering/OpenGL2/vtkShader.cxx:92-94 | returns the object's log text; only the call is recorded |
| GLBackend.Backend.GlDeleteShader | Rendering/OpenGL2/vtkShader.cxx:43 | the backend state becomes `GL.Delete` of the old state |
| Lifecycle.Apply | Rendering/OpenGL2/vtkShader.cxx:21-118 | each of the four operations keeps the backend valid and the invariant; every object the unit does not hold keeps its handle and its record |
| Lifecycle.Run | Rendering/OpenGL2/vtkShader.cxx:21-118 | a sequence of operations keeps the backend valid and only adds backend calls |
| Lifecycle.RunConfinesHandles | Rendering/OpenGL2/vtkShader.cxx:33-118 | after any sequence of operations the invariant holds and the held handle is live; the objects the unit does not hold, records included, are exactly those it did not hold at the start |
| Lifecycle.NoLeakFromNewUnit | Rendering/OpenGL2/vtkShader.cxx:12-118 | from construction on, the backend holds its original objects, unchanged, plus at most the unit's one handle, which is new; a clean unit's object was compiled from its current stage and source |
| Lifecycle.AtMostOneLiveObject | Rendering/OpenGL2/vtkShader.cxx:12-118 | on a backend that started empty, the only live object after any sequence is the unit's own handle |
| Lifecycle.SecondCompileIsNoOp | Rendering/OpenGL2/vtkShader.cxx:35-38 | right after a successful compile, a second compile returns false and changes nothing, whatever the driver would report |
| Lifecycle.RetryAfterFailureRuns | Rendering/OpenGL2/vtkShader.cxx:73-98 | a failed compile leaves the unit dirty, so a retry passes the guard |
| Lifecycle.SetterKeepsCompiledHandle | Rendering/OpenGL2/vtkShader.cxx:27-31 | after a successful compile a setter makes the unit dirty while its handle stays live |
| Lifecycle.CleanupOfUnknownKeepsHandle | Rendering/OpenGL2/vtkShader.cxx:108-113 | if a compiled unit's type is set back to Unknown, `Cleanup` does nothing and the handle stays live |
| Lifecycle.CleanupThenRecompile | Rendering/OpenGL2/vtkShader.cxx:108-118 | after `Cleanup` the unit is dirty with no handle and the old object is gone; the next compile with the same inputs runs fully and can succeed |
| Lifecycle.BrokenSourceAfterSuccess | Rendering/OpenGL2/vtkShader.cxx:33-106 | scenario: a vertex compile succeeds on a vertex-stage object; after a broken source the second compile first deletes that object, fails, holds no handle, stays dirty and leaves the backend's live set as it started; the first name is deleted once, or twice if the driver reused it; `Error` is the log when its length is above 1 |
| Lifecycle.UnknownTypeNeverCompiles | Rendering/OpenGL2/vtkShader.cxx:35-38 | with type Unknown, `Compile` returns false with no change and no backend call |
| Lifecycle.LeadingNulSubmitsEmptyText | Rendering/OpenGL2/vtkShader.cxx:35-80 | a source starting with NUL passes the guard, and on success the object holds an empty text |

## Left out

- The OpenGL calls themselves are foreign code. They are replaced by the abstract `GLBackend`. Creation failure, compile status, log length and log text are inputs to `Compile`.
- The info-log buffer (`new char[length]`, `glGetShaderInfoLog`, `delete[]`, lines 92-95) is not modelled. `Error` becomes the driver's log text as given: it is not cut to `length - 1` characters or at a NUL.
- CreatedHandleIsNew: does not promise that the new handle differs from the one the unit released, because `glCreateShader` may return a name freed by the `glDeleteShader` just before it (`ReleasedNameMayBeReused`).
- CompileSuccess: does not promise that the handle was never live before, for the same reason: it may be the name the unit released.
- The casts between `GLuint` and `int` for the handle (lines 43 and 102) are not modelled. Handles are natural numbers.
- `IsComputeShaderSupported` (lines 121-128) is a preprocessor branch plus a driver capability probe with no logic of its own.
- `PrintSelf` (lines 131-134) is diagnostic output only.
- `vtkStandardNewMacro` (line 10) is object-factory plumbing.
- The destructor (line 19) is defaulted and does nothing. The model has no destroy operation, and a handle held at destruction stays live.
- The OpenGL context is single-threaded and belongs to the current thread. The model has no concurrency.
- The ownership lemmas cover one unit per backend. Several units sharing one backend are within the frames (each `Compile` and `Cleanup` modifies only its own unit and the backend), but no lemma relates two units.
