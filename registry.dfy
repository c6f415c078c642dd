/**
 * What the two FramebufferManager variants share: framebuffer handles, the
 * external builder's inputs, the trace of graphics-state calls, and the
 * bookkeeping facts about which handles a pass touches or releases.
 */
module Registry {
  import opened Wrappers
  import opened ResourceLocations

  /** A FramebufferDefinition decoded from a resource file; its contents belong to the external builder. */
  type Definition(==)

  /** A Molang runtime: the named queries a definition's size expressions may read. */
  datatype MolangRuntime = MolangRuntime(queries: map<string, int>)

  /** What a definition's builder is created from. */
  datatype BuildContext =
    | Size(width: int, height: int)     // createBuilder(width, height)
    | Runtime(runtime: MolangRuntime)   // createBuilder(runtime)

  /**
   * An AdvancedFbo. Handles are compared by identity; the registry never
   * looks inside one. The two constants record where a handle came from.
   */
  class Fbo {
    const definition: Definition
    const context: BuildContext

    constructor (definition: Definition, context: BuildContext)
      ensures this.definition == definition && this.context == context
    {
      this.definition := definition;
      this.context := context;
    }
  }

  /** Calls into the process-wide graphics state, in the order issued. */
  datatype GlCall =
    | ClearColor(red: real, green: real, blue: real, alpha: real)  // RenderSystem.clearColor
    | BindDraw(fbo: Fbo, setViewport: bool)                         // AdvancedFbo.bindDraw
    | ClearBuffers(fbo: Fbo)                                        // AdvancedFbo.clear
    | Unbind                                                        // AdvancedFbo.unbind
    | UnbindDraw                                                    // AdvancedFbo.unbindDraw

  /** The clear colour both variants set before a pass: transparent black. */
  const TransparentBlack: GlCall := ClearColor(0.0, 0.0, 0.0, 0.0)

  /** The framebuffer bound for drawing after `calls`, starting from none. */
  function DrawBinding(calls: seq<GlCall>): Option<Fbo> {
    if calls == [] then None
    else match calls[|calls| - 1]
      case BindDraw(fbo, _) => Some(fbo)
      case Unbind => None
      case UnbindDraw => None
      case _ => DrawBinding(calls[..|calls| - 1])
  }

  /** The calls that initialise or clear each of `fbos` in turn: bindDraw(false), then clear. */
  function BindAndClear(fbos: seq<Fbo>): (calls: seq<GlCall>)
    ensures |calls| == 2 * |fbos|
    ensures forall i :: 0 <= i < |fbos| ==>
      calls[2 * i] == BindDraw(fbos[i], false) && calls[2 * i + 1] == ClearBuffers(fbos[i])
  {
    if fbos == [] then []
    else BindAndClear(fbos[..|fbos| - 1]) + [BindDraw(fbos[|fbos| - 1], false), ClearBuffers(fbos[|fbos| - 1])]
  }

  lemma BindAndClearAppend(fbos: seq<Fbo>, fbo: Fbo)
    ensures BindAndClear(fbos + [fbo]) == BindAndClear(fbos) + [BindDraw(fbo, false), ClearBuffers(fbo)]
  {
    assert (fbos + [fbo])[..|fbos|] == fbos;
  }

  /** Exactly the framebuffers in `fbos` are cleared by BindAndClear(fbos). */
  lemma {:induction false} ClearedByBindAndClear(fbos: seq<Fbo>, fbo: Fbo)
    ensures ClearBuffers(fbo) in BindAndClear(fbos) <==> fbo in fbos
  {
    if fbos != [] {
      var init := fbos[..|fbos| - 1];
      ClearedByBindAndClear(init, fbo);
      assert fbos == init + [fbos[|fbos| - 1]];
    }
  }

  /** No element of `s` occurs twice. */
  ghost predicate Distinct<T>(s: seq<T>) {
    forall i, j :: 0 <= i < j < |s| ==> s[i] != s[j]
  }

  /** `order` lists every name of `names` exactly once: one pass over a HashMap's entries. */
  ghost predicate Enumerates(order: seq<Location>, names: set<Location>) {
    Distinct(order) && forall name :: name in order <==> name in names
  }

  /** No handle is installed under two names. */
  ghost predicate Injective(framebuffers: map<Location, Fbo>) {
    forall a, b :: a in framebuffers && b in framebuffers && a != b ==> framebuffers[a] != framebuffers[b]
  }

  /**
   * The registry's ownership discipline: no handle has been released twice,
   * none is installed twice, and none that is installed has been released.
   */
  ghost predicate Owned(framebuffers: map<Location, Fbo>, released: seq<Fbo>) {
    Distinct(released) && Injective(framebuffers) &&
    forall name :: name in framebuffers ==> framebuffers[name] !in released
  }

  /** The handles installed under `order`, in that order. */
  function Handles(order: seq<Location>, framebuffers: map<Location, Fbo>): seq<Fbo>
    requires forall name :: name in order ==> name in framebuffers
  {
    seq(|order|, i requires 0 <= i < |order| => framebuffers[order[i]])
  }

  lemma HandlesAppend(order: seq<Location>, name: Location, framebuffers: map<Location, Fbo>)
    requires forall n :: n in order ==> n in framebuffers
    requires name in framebuffers
    ensures Handles(order + [name], framebuffers) == Handles(order, framebuffers) + [framebuffers[name]]
  {
  }

  /** Handles of names other than `name` do not see an update of `name`. */
  lemma HandlesUpdate(order: seq<Location>, framebuffers: map<Location, Fbo>, name: Location, fbo: Fbo)
    requires forall n :: n in order ==> n in framebuffers
    requires name !in order
    ensures Handles(order, framebuffers[name := fbo]) == Handles(order, framebuffers)
  {
  }

  /** One more step of a pass: a name not yet visited is appended. */
  lemma EnumeratesStep(order: seq<Location>, done: set<Location>, name: Location)
    requires Enumerates(order, done) && name !in done
    ensures Enumerates(order + [name], done + {name})
  {
  }

  /** The handle displaced from `name`, if any: what a put or remove on that key releases. */
  function Displaced(framebuffers: map<Location, Fbo>, name: Location): (r: seq<Fbo>)
    ensures |r| <= 1
    ensures r == [] <==> name !in framebuffers
    ensures forall fbo :: fbo in r ==> name in framebuffers && fbo == framebuffers[name]
  {
    if name in framebuffers then [framebuffers[name]] else []
  }

  /** A list naming each element of a set once is as long as the set is large. */
  lemma {:induction false} EnumerationSize(order: seq<Location>, names: set<Location>)
    requires Enumerates(order, names)
    ensures |order| == |names|
  {
    if order != [] {
      var rest := order[1..];
      assert order == [order[0]] + rest;
      assert Enumerates(rest, names - {order[0]}) by {
        forall name | name in rest ensures name in names - {order[0]} {
          var k :| 0 <= k < |rest| && rest[k] == name;
          assert order[k + 1] == name;
        }
      }
      EnumerationSize(rest, names - {order[0]});
    }
  }

  /** The handles of a list of distinct names of an injective map are distinct, and new to a disjoint trace. */
  lemma HandlesDistinct(framebuffers: map<Location, Fbo>, released: seq<Fbo>, order: seq<Location>)
    requires Owned(framebuffers, released)
    requires Distinct(order)
    requires forall name :: name in order ==> name in framebuffers
    ensures Distinct(released + Handles(order, framebuffers))
  {
    var all := released + Handles(order, framebuffers);
    forall i, j | 0 <= i < j < |all| ensures all[i] != all[j] {
      if j >= |released| && i < |released| {
        assert all[j] == framebuffers[order[j - |released|]];
      } else if i >= |released| {
        assert order[i - |released|] != order[j - |released|];
      }
    }
  }

  /** The handle of an entry is among the handles of `order` exactly when `order` lists that entry. */
  lemma HandlesMembership(framebuffers: map<Location, Fbo>, names: set<Location>, order: seq<Location>)
    requires Injective(framebuffers)
    requires Enumerates(order, names) && names <= framebuffers.Keys
    ensures forall name :: name in framebuffers ==>
      (framebuffers[name] in Handles(order, framebuffers) <==> name in names)
  {
    var handles := Handles(order, framebuffers);
    forall name | name in framebuffers
      ensures framebuffers[name] in handles <==> name in names
    {
      if name in names {
        assert name in order;
        var k :| 0 <= k < |order| && order[k] == name;
        assert handles[k] == framebuffers[name];
      }
      if framebuffers[name] in handles {
        var k :| 0 <= k < |handles| && handles[k] == framebuffers[name];
        assert order[k] == name;
      }
    }
  }

  /**
   * `handles` releases, once each, the handle of every entry outside
   * `statics`, and no handle of an entry inside it.
   */
  ghost predicate ReleasesDynamic(framebuffers: map<Location, Fbo>, statics: set<Location>, handles: seq<Fbo>) {
    && Distinct(handles)
    && |handles| == |framebuffers.Keys - statics|
    && forall name :: name in framebuffers ==> (framebuffers[name] in handles <==> name !in statics)
  }

  /**
   * Releasing the handles of `order`, which names every non-static entry
   * once, releases each of them once, releases no handle of a static entry,
   * and releases none that was released before.
   */
  lemma ReleaseDynamic(framebuffers: map<Location, Fbo>, statics: set<Location>,
                       released: seq<Fbo>, order: seq<Location>)
    requires Owned(framebuffers, released)
    requires Enumerates(order, framebuffers.Keys - statics)
    ensures Distinct(released + Handles(order, framebuffers))
    ensures ReleasesDynamic(framebuffers, statics, Handles(order, framebuffers))
  {
    HandlesDistinct(framebuffers, [], order);
    assert [] + Handles(order, framebuffers) == Handles(order, framebuffers);
    HandlesDistinct(framebuffers, released, order);
    HandlesMembership(framebuffers, framebuffers.Keys - statics, order);
    EnumerationSize(order, framebuffers.Keys - statics);
  }

  /**
   * Where free() stands once the names of `names` outside `pending` are
   * released: `freed` lists them in the order released and `handles` holds
   * the handles released so far.
   */
  ghost predicate ReleasePass(framebuffers: map<Location, Fbo>, names: set<Location>,
                              pending: set<Location>, freed: seq<Location>, handles: seq<Fbo>)
  {
    && pending <= names <= framebuffers.Keys
    && Enumerates(freed, names - pending)
    && handles == Handles(freed, framebuffers)
  }

  /** Releasing one more pending name extends the pass by its handle. */
  lemma ReleasePassStep(framebuffers: map<Location, Fbo>, names: set<Location>,
                        pending: set<Location>, freed: seq<Location>, handles: seq<Fbo>, name: Location)
    requires ReleasePass(framebuffers, names, pending, freed, handles) && name in pending
    ensures ReleasePass(framebuffers, names, pending - {name}, freed + [name], handles + [framebuffers[name]])
  {
    assert names - (pending - {name}) == (names - pending) + {name};
    EnumeratesStep(freed, names - pending, name);
    HandlesAppend(freed, name, framebuffers);
  }

  /**
   * A finished free() pass over the non-static entries has released each of
   * them once and, under the discipline, nothing twice.
   */
  lemma ReleasePassDone(framebuffers: map<Location, Fbo>, statics: set<Location>,
                        released: seq<Fbo>, freed: seq<Location>, handles: seq<Fbo>)
    requires ReleasePass(framebuffers, (framebuffers - statics).Keys, {}, freed, handles)
    ensures Enumerates(freed, framebuffers.Keys - statics)
    ensures Owned(framebuffers, released) ==>
      Owned(map[], released + handles) && ReleasesDynamic(framebuffers, statics, handles)
  {
    assert (framebuffers - statics).Keys - {} == framebuffers.Keys - statics;
    if Owned(framebuffers, released) {
      ReleaseDynamic(framebuffers, statics, released, freed);
    }
  }

  /** The calls of a per-frame clear over `fbos`: set the clear colour, clear each, reset the draw binding. */
  function ClearCalls(fbos: seq<Fbo>): (calls: seq<GlCall>)
    ensures DrawBinding(calls) == None
  {
    [TransparentBlack] + BindAndClear(fbos) + [UnbindDraw]
  }

  /**
   * Where a per-frame clear stands once the names outside `pending` are
   * visited: `cleared` lists the visited non-static names in the order they
   * were cleared, and `pass` holds the calls that cleared them.
   */
  ghost predicate ClearPass(framebuffers: map<Location, Fbo>, statics: set<Location>,
                            pending: set<Location>, cleared: seq<Location>, pass: seq<GlCall>)
  {
    && pending <= framebuffers.Keys
    && Enumerates(cleared, (framebuffers.Keys - pending) - statics)
    && pass == BindAndClear(Handles(cleared, framebuffers))
  }

  /** Visiting one more name: a non-static one is cleared, a static one skipped. */
  lemma ClearPassStep(framebuffers: map<Location, Fbo>, statics: set<Location>,
                      pending: set<Location>, cleared: seq<Location>, pass: seq<GlCall>, name: Location)
    requires ClearPass(framebuffers, statics, pending, cleared, pass) && name in pending
    ensures name !in statics ==>
      ClearPass(framebuffers, statics, pending - {name}, cleared + [name],
                pass + [BindDraw(framebuffers[name], false), ClearBuffers(framebuffers[name])])
    ensures name in statics ==> ClearPass(framebuffers, statics, pending - {name}, cleared, pass)
  {
    var done := (framebuffers.Keys - pending) - statics;
    if name !in statics {
      assert (framebuffers.Keys - (pending - {name})) - statics == done + {name};
      EnumeratesStep(cleared, done, name);
      HandlesAppend(cleared, name, framebuffers);
      BindAndClearAppend(Handles(cleared, framebuffers), framebuffers[name]);
    } else {
      assert (framebuffers.Keys - (pending - {name})) - statics == done;
    }
  }

  /** The calls `calls` clear the handle of an entry exactly when that entry is not static. */
  ghost predicate ClearsDynamic(framebuffers: map<Location, Fbo>, statics: set<Location>, calls: seq<GlCall>) {
    forall name :: name in framebuffers ==> (ClearBuffers(framebuffers[name]) in calls <==> name !in statics)
  }

  /**
   * A per-frame clear over `order` (every non-static entry once) clears the
   * handle of an entry exactly when that entry is not static.
   */
  lemma ClearDynamic(framebuffers: map<Location, Fbo>, statics: set<Location>, order: seq<Location>)
    requires Injective(framebuffers)
    requires Enumerates(order, framebuffers.Keys - statics)
    ensures ClearsDynamic(framebuffers, statics, ClearCalls(Handles(order, framebuffers)))
  {
    HandlesMembership(framebuffers, framebuffers.Keys - statics, order);
    forall name | name in framebuffers
      ensures ClearBuffers(framebuffers[name]) in ClearCalls(Handles(order, framebuffers)) <==> name !in statics
    {
      ClearedByBindAndClear(Handles(order, framebuffers), framebuffers[name]);
    }
  }

  /** Installing a handle new to the registry, releasing the one it displaces, keeps the discipline. */
  lemma InstallKeepsOwnership(framebuffers: map<Location, Fbo>, released: seq<Fbo>, name: Location, fbo: Fbo)
    requires Owned(framebuffers, released)
    requires fbo !in framebuffers.Values && fbo !in released
    ensures Owned(framebuffers[name := fbo], released + Displaced(framebuffers, name))
  {
    var after := released + Displaced(framebuffers, name);
    if name in framebuffers {
      forall i | 0 <= i < |released| ensures released[i] != framebuffers[name] { }
    }
    var installed := framebuffers[name := fbo];
    forall other | other in installed
      ensures installed[other] !in after
    {
      if other != name {
        assert framebuffers[other] != fbo by { assert framebuffers[other] in framebuffers.Values; }
      }
    }
  }

  /** Installing a handle found under no name keeps the map injective. */
  lemma InjectiveInstall(framebuffers: map<Location, Fbo>, name: Location, fbo: Fbo)
    requires Injective(framebuffers) && fbo !in framebuffers.Values
    ensures Injective(framebuffers[name := fbo])
  {
    var installed := framebuffers[name := fbo];
    forall a, b | a in installed && b in installed && a != b ensures installed[a] != installed[b] {
      if a != name && b != name {
      } else if a == name {
        assert framebuffers[b] in framebuffers.Values;
      } else {
        assert framebuffers[a] in framebuffers.Values;
      }
    }
  }

  /**
   * The outcome of a build pass over `definitions`: exactly the definitions
   * whose build returned are installed, each under its own name, with a
   * buffer of its own built from that definition in `context`.
   */
  ghost predicate Rebuilt(framebuffers: map<Location, Fbo>, definitions: map<Location, Definition>,
                          context: BuildContext, builds: (Definition, BuildContext) -> bool)
  {
    && (forall name :: name in framebuffers <==> name in definitions && builds(definitions[name], context))
    && (forall name :: name in framebuffers ==>
          framebuffers[name].definition == definitions[name] && framebuffers[name].context == context)
    && Injective(framebuffers)
  }

  /**
   * Where a build pass stands once the names outside `pending` are visited:
   * the visited definitions are rebuilt with buffers none of which is among
   * `existing`, `built` lists the installed names in the order they were
   * installed, and `pass` holds the calls that initialised them.
   */
  ghost predicate BuildPass(framebuffers: map<Location, Fbo>, definitions: map<Location, Definition>,
                            context: BuildContext, builds: (Definition, BuildContext) -> bool, existing: set<Fbo>,
                            pending: set<Location>, built: seq<Location>, pass: seq<GlCall>)
  {
    && pending <= definitions.Keys
    && Rebuilt(framebuffers, definitions - pending, context, builds)
    && (forall name :: name in framebuffers ==> framebuffers[name] !in existing)
    && Enumerates(built, framebuffers.Keys)
    && pass == BindAndClear(Handles(built, framebuffers))
  }

  /** Installing a new buffer built from a pending definition rebuilds one more definition. */
  lemma RebuiltInstall(framebuffers: map<Location, Fbo>, definitions: map<Location, Definition>,
                       context: BuildContext, builds: (Definition, BuildContext) -> bool,
                       pending: set<Location>, name: Location, fbo: Fbo)
    requires Rebuilt(framebuffers, definitions - pending, context, builds)
    requires name in pending && name in definitions && builds(definitions[name], context)
    requires fbo !in framebuffers.Values && fbo.definition == definitions[name] && fbo.context == context
    ensures Rebuilt(framebuffers[name := fbo], definitions - (pending - {name}), context, builds)
  {
    InjectiveInstall(framebuffers, name, fbo);
  }

  /** Installing a buffer under a name not yet in the map appends its initialisation to the pass. */
  lemma PassInstall(framebuffers: map<Location, Fbo>, built: seq<Location>, pass: seq<GlCall>,
                    name: Location, fbo: Fbo)
    requires Enumerates(built, framebuffers.Keys) && name !in framebuffers
    requires pass == BindAndClear(Handles(built, framebuffers))
    ensures Enumerates(built + [name], framebuffers[name := fbo].Keys)
    ensures pass + [BindDraw(fbo, false), ClearBuffers(fbo)] ==
            BindAndClear(Handles(built + [name], framebuffers[name := fbo]))
  {
    HandlesUpdate(built, framebuffers, name, fbo);
    HandlesAppend(built, name, framebuffers[name := fbo]);
    BindAndClearAppend(Handles(built, framebuffers), fbo);
    EnumeratesStep(built, framebuffers.Keys, name);
  }

  /** A build that returns a new buffer installs it and extends the pass's calls by its initialisation. */
  lemma BuildPassInstall(framebuffers: map<Location, Fbo>, definitions: map<Location, Definition>,
                         context: BuildContext, builds: (Definition, BuildContext) -> bool, existing: set<Fbo>,
                         pending: set<Location>, built: seq<Location>, pass: seq<GlCall>,
                         name: Location, fbo: Fbo)
    requires BuildPass(framebuffers, definitions, context, builds, existing, pending, built, pass)
    requires name in pending && builds(definitions[name], context)
    requires fbo !in framebuffers.Values && fbo !in existing
    requires fbo.definition == definitions[name] && fbo.context == context
    ensures BuildPass(framebuffers[name := fbo], definitions, context, builds, existing, pending - {name}, built + [name],
                      pass + [BindDraw(fbo, false), ClearBuffers(fbo)])
  {
    assert name !in framebuffers;
    RebuiltInstall(framebuffers, definitions, context, builds, pending, name, fbo);
    PassInstall(framebuffers, built, pass, name, fbo);
  }

  /** A build that throws leaves the pass as it was. */
  lemma BuildPassSkip(framebuffers: map<Location, Fbo>, definitions: map<Location, Definition>,
                      context: BuildContext, builds: (Definition, BuildContext) -> bool, existing: set<Fbo>,
                      pending: set<Location>, built: seq<Location>, pass: seq<GlCall>, name: Location)
    requires BuildPass(framebuffers, definitions, context, builds, existing, pending, built, pass)
    requires name in pending && !builds(definitions[name], context)
    ensures BuildPass(framebuffers, definitions, context, builds, existing, pending - {name}, built, pass)
  {
  }

  /** A finished build pass has rebuilt every definition. */
  lemma BuildPassDone(framebuffers: map<Location, Fbo>, definitions: map<Location, Definition>,
                      context: BuildContext, builds: (Definition, BuildContext) -> bool, existing: set<Fbo>,
                      built: seq<Location>, pass: seq<GlCall>)
    requires BuildPass(framebuffers, definitions, context, builds, existing, {}, built, pass)
    ensures Rebuilt(framebuffers, definitions, context, builds)
  {
    assert definitions - {} == definitions;
  }

  /** Removing an entry and releasing its handle keeps the discipline. */
  lemma RemoveKeepsOwnership(framebuffers: map<Location, Fbo>, released: seq<Fbo>, name: Location)
    requires Owned(framebuffers, released)
    ensures Owned(framebuffers - {name}, released + Displaced(framebuffers, name))
  {
    if name in framebuffers {
      forall i | 0 <= i < |released| ensures released[i] != framebuffers[name] { }
    }
  }
}
