/**
 * The framebuffer registry whose static buffers are built by their owner and
 * handed over whole (foundry.veil.framebuffer.FramebufferManager).
 */
module PrebuiltFramebuffers {
  import opened Wrappers
  import opened ResourceLocations
  import opened Registry

  class FramebufferManager {
    /** The definitions of the last reload, by name. */
    var framebufferDefinitions: map<Location, Definition>
    /** Names whose buffers the per-frame clear skips and free() does not release. */
    var staticFramebuffers: set<Location>
    /** The live buffers, by name. */
    var framebuffers: map<Location, Fbo>
    /** Every AdvancedFbo.free issued, oldest first. */
    var released: seq<Fbo>
    /** Every call into the graphics state, oldest first. */
    var gl: seq<GlCall>

    /** No buffer released twice, none installed twice, none installed after release. */
    ghost predicate OwnershipHolds()
      reads this
    {
      Owned(framebuffers, released)
    }

    constructor ()
      ensures framebufferDefinitions == map[] && staticFramebuffers == {} && framebuffers == map[]
      ensures released == [] && gl == []
      ensures OwnershipHolds()
    {
      framebufferDefinitions := map[];
      staticFramebuffers := {};
      framebuffers := map[];
      released := [];
      gl := [];
    }

    /** init: bind the buffer for drawing, without touching the viewport, and clear it. */
    method Init(fbo: Fbo)
      modifies this`gl
      ensures gl == old(gl) + [BindDraw(fbo, false), ClearBuffers(fbo)]
      ensures DrawBinding(gl) == Some(fbo)
    {
      gl := gl + [BindDraw(fbo, false), ClearBuffers(fbo)];
    }

    /**
     * free: the static entries leave the map without being released; every
     * other entry is released once, in map order; then map and static set are
     * emptied.
     */
    method Free() returns (ghost freed: seq<Location>)
      modifies this`framebuffers, this`staticFramebuffers, this`released
      ensures framebuffers == map[] && staticFramebuffers == {}
      ensures Enumerates(freed, old(framebuffers).Keys - old(staticFramebuffers))
      ensures released == old(released) + Handles(freed, old(framebuffers))
      ensures old(OwnershipHolds()) ==> OwnershipHolds()
      ensures old(OwnershipHolds()) ==>
        ReleasesDynamic(old(framebuffers), old(staticFramebuffers), Handles(freed, old(framebuffers)))
    {
      ghost var before := framebuffers;
      framebuffers := framebuffers - staticFramebuffers;
      ghost var dynamic := framebuffers.Keys;
      var pending := framebuffers.Keys;
      freed := [];
      ghost var handles := [];
      while pending != {}
        invariant framebuffers == before - old(staticFramebuffers)
        invariant staticFramebuffers == old(staticFramebuffers)
        invariant ReleasePass(before, dynamic, pending, freed, handles)
        invariant released == old(released) + handles
        decreases pending
      {
        var name :| name in pending;
        ReleasePassStep(before, dynamic, pending, freed, handles, name);
        released := released + [framebuffers[name]];
        freed := freed + [name];
        handles := handles + [before[name]];
        pending := pending - {name};
      }
      ReleasePassDone(before, staticFramebuffers, old(released), freed, handles);
      staticFramebuffers := {};
      framebuffers := map[];
    }

    /**
     * resizeFramebuffers: free everything, then build every definition at the
     * new size. A definition whose build throws gets no entry and the others
     * are still built; each built buffer is initialised and installed under
     * its name, and the pass ends with every binding reset.
     */
    method ResizeFramebuffers(width: int, height: int, builds: (Definition, BuildContext) -> bool)
      returns (ghost freed: seq<Location>, ghost built: seq<Location>)
      modifies this`framebuffers, this`staticFramebuffers, this`released, this`gl
      ensures framebufferDefinitions == old(framebufferDefinitions)
      ensures staticFramebuffers == {}
      ensures Enumerates(freed, old(framebuffers).Keys - old(staticFramebuffers))
      ensures released == old(released) + Handles(freed, old(framebuffers))
      ensures old(OwnershipHolds()) ==>
        ReleasesDynamic(old(framebuffers), old(staticFramebuffers), Handles(freed, old(framebuffers)))
      ensures Rebuilt(framebuffers, framebufferDefinitions, Size(width, height), builds)
      ensures forall name :: name in framebuffers ==>
        framebuffers[name] !in old(framebuffers).Values && framebuffers[name] !in released
      ensures forall name :: name in framebuffers ==> fresh(framebuffers[name])
      ensures Enumerates(built, framebuffers.Keys)
      ensures gl == old(gl) + [TransparentBlack] + BindAndClear(Handles(built, framebuffers)) + [Unbind]
      ensures DrawBinding(gl) == None
      ensures old(OwnershipHolds()) ==> OwnershipHolds()
    {
      ghost var previous := framebuffers.Values;
      freed := Free();
      built := BuildAll(Size(width, height), builds, previous + set fbo | fbo in released);
    }

    /**
     * The build pass of resizeFramebuffers, on an empty map: set the clear
     * colour, build, initialise and install each definition whose build
     * returns, skip each whose build throws, and unbind at the end. Every
     * buffer it installs is new, so none is among `existing`.
     */
    method BuildAll(context: BuildContext, builds: (Definition, BuildContext) -> bool, ghost existing: set<Fbo>)
      returns (ghost built: seq<Location>)
      requires framebuffers == map[]
      modifies this`framebuffers, this`gl
      ensures Rebuilt(framebuffers, framebufferDefinitions, context, builds)
      ensures forall name :: name in framebuffers ==> framebuffers[name] !in existing
      ensures forall name :: name in framebuffers ==> fresh(framebuffers[name])
      ensures Enumerates(built, framebuffers.Keys)
      ensures gl == old(gl) + [TransparentBlack] + BindAndClear(Handles(built, framebuffers)) + [Unbind]
      ensures DrawBinding(gl) == None
    {
      gl := gl + [TransparentBlack];
      ghost var pass;
      built, pass := BuildEach(context, builds, existing);
      BuildPassDone(framebuffers, framebufferDefinitions, context, builds, existing, built, pass);
      gl := gl + [Unbind];
    }

    /**
     * The forEach inside the build pass: visit each definition once, in map
     * order, and build it. `pass` is the calls the visit issues.
     */
    method BuildEach(context: BuildContext, builds: (Definition, BuildContext) -> bool, ghost existing: set<Fbo>)
      returns (ghost built: seq<Location>, ghost pass: seq<GlCall>)
      requires framebuffers == map[]
      modifies this`framebuffers, this`gl
      ensures BuildPass(framebuffers, framebufferDefinitions, context, builds, existing, {}, built, pass)
      ensures gl == old(gl) + pass
      ensures forall name :: name in framebuffers ==> fresh(framebuffers[name])
    {
      var pending := framebufferDefinitions.Keys;
      built := [];
      pass := [];
      while pending != {}
        invariant BuildPass(framebuffers, framebufferDefinitions, context, builds, existing, pending, built, pass)
        invariant gl == old(gl) + pass
        invariant forall name :: name in framebuffers ==> fresh(framebuffers[name])
        decreases pending
      {
        var name :| name in pending;
        var installed;
        installed, built, pass := BuildEntry(name, context, builds, existing, pending, built, old(gl), pass);
        pending := pending - {name};
      }
    }

    /**
     * One step of the build pass, the body of the forEach: build the
     * definition of `name`; when the build returns, initialise the new buffer
     * and install it, and when it throws, leave everything as it was. The
     * ghost parameters carry where the pass stands; `start` is the trace
     * before the pass.
     */
    method BuildEntry(name: Location, context: BuildContext, builds: (Definition, BuildContext) -> bool,
                      ghost existing: set<Fbo>, ghost pending: set<Location>, ghost built: seq<Location>,
                      ghost start: seq<GlCall>, ghost pass: seq<GlCall>)
      returns (installed: bool, ghost built': seq<Location>, ghost pass': seq<GlCall>)
      requires name in pending
      requires BuildPass(framebuffers, framebufferDefinitions, context, builds, existing, pending, built, pass)
      requires gl == start + pass
      modifies this`framebuffers, this`gl
      ensures installed == builds(framebufferDefinitions[name], context)
      ensures !installed ==> framebuffers == old(framebuffers) && gl == old(gl)
      ensures installed ==>
        name in framebuffers && framebuffers == old(framebuffers)[name := framebuffers[name]] &&
        fresh(framebuffers[name]) &&
        gl == old(gl) + [BindDraw(framebuffers[name], false), ClearBuffers(framebuffers[name])]
      ensures BuildPass(framebuffers, framebufferDefinitions, context, builds, existing, pending - {name}, built', pass')
      ensures gl == start + pass'
    {
      var definition := framebufferDefinitions[name];
      installed := builds(definition, context);
      built', pass' := built, pass;
      if installed {
        var fbo := new Fbo(definition, context);
        Init(fbo);
        BuildPassInstall(framebuffers, framebufferDefinitions, context, builds, existing, pending, built, pass, name, fbo);
        framebuffers := framebuffers[name := fbo];
        built' := built + [name];
        pass' := pass + [BindDraw(fbo, false), ClearBuffers(fbo)];
      } else {
        BuildPassSkip(framebuffers, framebufferDefinitions, context, builds, existing, pending, built, pass, name);
      }
    }

    /**
     * addStatic: a missing buffer is refused (ok is false and nothing
     * changes). Otherwise the buffer is initialised, installed under `name`,
     * the buffer it displaces is released, and `name` becomes static.
     */
    method AddStatic(name: Location, fbo: Fbo?) returns (ok: bool)
      modifies this`framebuffers, this`staticFramebuffers, this`released, this`gl
      ensures ok <==> fbo != null
      ensures !ok ==>
        framebuffers == old(framebuffers) && staticFramebuffers == old(staticFramebuffers) &&
        released == old(released) && gl == old(gl)
      ensures ok ==>
        framebuffers == old(framebuffers)[name := fbo] &&
        staticFramebuffers == old(staticFramebuffers) + {name} &&
        released == old(released) + Displaced(old(framebuffers), name) &&
        gl == old(gl) + [BindDraw(fbo, false), ClearBuffers(fbo)]
      ensures ok ==> DrawBinding(gl) == Some(fbo)
      ensures ok && old(OwnershipHolds()) && fbo !in old(framebuffers).Values && fbo !in old(released) ==>
        OwnershipHolds()
    {
      if fbo == null {
        return false;
      }
      Init(fbo);
      var displaced := Displaced(framebuffers, name);
      if old(OwnershipHolds()) && fbo !in framebuffers.Values && fbo !in released {
        InstallKeepsOwnership(framebuffers, released, name, fbo);
      }
      framebuffers := framebuffers[name := fbo];
      if displaced != [] {
        released := released + [displaced[0]];
      }
      staticFramebuffers := staticFramebuffers + {name};
      ok := true;
    }

    /**
     * removeStatic: the entry under `name`, if any, leaves the map and its
     * buffer is released; the static set is left as it is.
     */
    method RemoveStatic(name: Location)
      modifies this`framebuffers, this`released
      ensures framebuffers == old(framebuffers) - {name}
      ensures released == old(released) + Displaced(old(framebuffers), name)
      ensures name !in old(framebuffers) ==> framebuffers == old(framebuffers) && released == old(released)
      ensures old(OwnershipHolds()) ==> OwnershipHolds()
    {
      if old(OwnershipHolds()) {
        RemoveKeepsOwnership(framebuffers, released, name);
      }
      if name in framebuffers {
        var fbo := framebuffers[name];
        framebuffers := framebuffers - {name};
        released := released + [fbo];
      }
    }

    /**
     * clear: bind and clear every non-static buffer, in map order, then reset
     * the draw binding. No entry, static name or release changes.
     */
    method Clear() returns (ghost cleared: seq<Location>)
      modifies this`gl
      ensures Enumerates(cleared, framebuffers.Keys - staticFramebuffers)
      ensures gl == old(gl) + ClearCalls(Handles(cleared, framebuffers))
      ensures Injective(framebuffers) ==>
        ClearsDynamic(framebuffers, staticFramebuffers, ClearCalls(Handles(cleared, framebuffers)))
      ensures DrawBinding(gl) == None
    {
      gl := gl + [TransparentBlack];
      ghost var glBefore := gl;
      var pending := framebuffers.Keys;
      cleared := [];
      ghost var pass := [];
      while pending != {}
        invariant ClearPass(framebuffers, staticFramebuffers, pending, cleared, pass)
        invariant gl == glBefore + pass
        decreases pending
      {
        var name :| name in pending;
        ClearPassStep(framebuffers, staticFramebuffers, pending, cleared, pass, name);
        if name !in staticFramebuffers {
          var fbo := framebuffers[name];
          gl := gl + [BindDraw(fbo, false), ClearBuffers(fbo)];
          cleared := cleared + [name];
          pass := pass + [BindDraw(fbo, false), ClearBuffers(fbo)];
        }
        pending := pending - {name};
      }
      gl := gl + [UnbindDraw];
      if Injective(framebuffers) {
        ClearDynamic(framebuffers, staticFramebuffers, cleared);
      }
    }

    /** getFramebuffer: the buffer under `name`, or none (Java's null). */
    function GetFramebuffer(name: Location): (fbo: Option<Fbo>)
      reads this
      ensures fbo.Some? <==> name in framebuffers
      ensures fbo.Some? ==> fbo.value == framebuffers[name]
    {
      if name in framebuffers then Some(framebuffers[name]) else None
    }

    /**
     * getFramebuffers: the read-only view of the live map. A function of the
     * current state, it agrees with getFramebuffer on every name whenever it
     * is consulted.
     */
    function GetFramebuffers(): (view: map<Location, Fbo>)
      reads this
      ensures forall name :: GetFramebuffer(name) == (if name in view then Some(view[name]) else None)
    {
      framebuffers
    }

    /**
     * apply: the reloaded definitions replace the old ones wholesale, then
     * every buffer is rebuilt at the window's size.
     */
    method Apply(data: map<Location, Definition>, windowWidth: int, windowHeight: int,
                 builds: (Definition, BuildContext) -> bool)
      returns (ghost freed: seq<Location>, ghost built: seq<Location>)
      modifies this`framebufferDefinitions, this`framebuffers, this`staticFramebuffers, this`released, this`gl
      ensures framebufferDefinitions == data
      ensures staticFramebuffers == {}
      ensures Enumerates(freed, old(framebuffers).Keys - old(staticFramebuffers))
      ensures released == old(released) + Handles(freed, old(framebuffers))
      ensures old(OwnershipHolds()) ==>
        ReleasesDynamic(old(framebuffers), old(staticFramebuffers), Handles(freed, old(framebuffers)))
      ensures Rebuilt(framebuffers, data, Size(windowWidth, windowHeight), builds)
      ensures forall name :: name in framebuffers ==>
        framebuffers[name] !in old(framebuffers).Values && framebuffers[name] !in released
      ensures forall name :: name in framebuffers ==> fresh(framebuffers[name])
      ensures Enumerates(built, framebuffers.Keys)
      ensures gl == old(gl) + [TransparentBlack] + BindAndClear(Handles(built, framebuffers)) + [Unbind]
      ensures DrawBinding(gl) == None
      ensures old(OwnershipHolds()) ==> OwnershipHolds()
    {
      framebufferDefinitions := data;
      freed, built := ResizeFramebuffers(windowWidth, windowHeight, builds);
    }
  }

  /**
   * Static entries do not survive a resize: a buffer `x` handed over as
   * static under `name` is, after the next resize, neither installed nor
   * released, and `name` is rebuilt from its definition when that build
   * returns.
   */
  method AddStaticThenResize(manager: FramebufferManager, name: Location, x: Fbo,
                             width: int, height: int, builds: (Definition, BuildContext) -> bool)
    returns (afterResize: Option<Fbo>)
    requires manager.OwnershipHolds()
    requires x !in manager.framebuffers.Values && x !in manager.released
    modifies manager
    ensures afterResize == manager.GetFramebuffer(name)
    ensures x !in manager.framebuffers.Values && x !in manager.released
    ensures afterResize.Some? <==>
      name in manager.framebufferDefinitions && builds(manager.framebufferDefinitions[name], Size(width, height))
    ensures afterResize.Some? ==> afterResize.value != x
  {
    var ok := manager.AddStatic(name, x);
    ghost var before := manager.framebuffers;
    ghost var freed, built := manager.ResizeFramebuffers(width, height, builds);
    assert before[name] == x && x !in Handles(freed, before);
    afterResize := manager.GetFramebuffer(name);
  }

  /**
   * A buffer its owner built before a resize can be handed over as static
   * after it: the rebuilt buffers are all new, so the hand-over keeps the
   * ownership discipline, installs the buffer under `name` and makes `name`
   * the only static name.
   */
  method ResizeThenAddStatic(manager: FramebufferManager, name: Location, x: Fbo,
                             width: int, height: int, builds: (Definition, BuildContext) -> bool)
    requires manager.OwnershipHolds()
    requires x !in manager.framebuffers.Values && x !in manager.released
    modifies manager
    ensures manager.OwnershipHolds()
    ensures manager.GetFramebuffer(name) == Some(x)
    ensures manager.staticFramebuffers == {name}
  {
    ghost var before := manager.framebuffers;
    ghost var freed, built := manager.ResizeFramebuffers(width, height, builds);
    ghost var handles := Handles(freed, before);
    assert forall k :: 0 <= k < |handles| ==> handles[k] == before[freed[k]];
    assert x !in handles;
    var ok := manager.AddStatic(name, x);
  }

  /** removeStatic is idempotent: a second call on the same name changes nothing. */
  method RemoveStaticTwice(manager: FramebufferManager, name: Location)
    modifies manager
    ensures manager.framebuffers == old(manager.framebuffers) - {name}
    ensures manager.released == old(manager.released) + Displaced(old(manager.framebuffers), name)
    ensures manager.staticFramebuffers == old(manager.staticFramebuffers)
    ensures manager.gl == old(manager.gl)
    ensures manager.framebufferDefinitions == old(manager.framebufferDefinitions)
  {
    manager.RemoveStatic(name);
    manager.RemoveStatic(name);
  }
}
