# ScrollBox edge shadows, modelled in Dafny

`ScrollBox` is a React scroll container that overlays fading "shadows" on the
edges beyond which there is more content to scroll to. This project models
the logic inside it:

- the edge rule of `useShadowGroupState`'s `doUpdate`: on one axis the start
  shadow may show when the scroll offset is positive, the end shadow when
  offset plus visible extent falls strictly short of the total extent
  (`geometry.dfy`, module `Geometry`);
- the cached update step: a controller holds the displayed flags
  (`showStart`, `showEnd`) and a cache of the last computed flags
  (`cachedStateRef`); an update with no node does nothing, otherwise it calls
  a setter only for a flag whose new value differs from the cached one and
  then overwrites the cache. Setter calls are returned as events and applied
  synchronously, so redundant updates can be counted. A run of triggers
  (mount, scroll, resize) is a sequence of node-reference values, each
  invoking the step (`shadow_state.dfy`, module `ShadowState`);
- the frame: how the `shadows` prop (`false`, `true`, `'horizontal'`,
  `'vertical'`, default `true`) selects the controllers, how each
  controller's start/end flags drive the top/bottom or left/right shadow,
  and a shadow's opacity (`frame.dfy`, module `Frame`).

`wrappers.dfy` holds the `Option` type used for the nullable node reference.

## Model

| member | source | states |
|---|---|---|
| Geometry.ComputeFlags | src/index.tsx:155-161 | the flags, each choosing `scrollLeft`/`offsetWidth`/`scrollWidth` or `scrollTop`/`offsetHeight`/`scrollHeight` by orientation, equal the edge rule applied to the watched axis |
| Geometry.StartFlagMeansContentBefore | src/index.tsx:155-156 | on left-to-right or vertical geometry (offset and visible extent non-negative, offset within the content) the start flag is on exactly when some content position lies before the viewport |
| Geometry.EndFlagMeansContentAfter | src/index.tsx:158-161 | on the same geometry, reading the visible extent as the viewport, the end flag is on exactly when some content position lies at or beyond the viewport's far edge |
| Geometry.NoOverflowNoShadows | src/index.tsx:155-161 | unscrolled content no longer than the viewport yields both flags off |
| Geometry.EndFlagIsStrict | src/index.tsx:158-161 | a viewport flush with the content's end gives no end flag; one pixel short gives one |
| Geometry.FlagsDependOnlyOnOwnAxis | src/index.tsx:155-161 | a controller's flags depend only on the three fields of its own axis |
| Geometry.HorizontalScenarios | src/index.tsx:155-161 | the 100-pixel viewport over 100 or 200 pixels of content, at start, middle and end, gives the expected flags |
| ShadowState.DoUpdate | src/index.tsx:151-176 | with no node the state and calls are unchanged; otherwise the cache becomes the computed flags, `setShowStart` with the computed start flag is called exactly when that flag differs from the cache and likewise `setShowEnd`, no call writes a value the cache already held, a start call comes before an end call, and the display changes only through those calls |
| ShadowState.UpdateKeepsCoherent | src/index.tsx:163-174 | from a state whose display equals its cache, an update keeps them equal and, with a node, displays the computed flags |
| ShadowState.UpdateCallsChangeDisplay | src/index.tsx:163-169 | from such a state every setter call changes the displayed value (no redundant re-render) |
| ShadowState.UpdateIdempotent | src/index.tsx:163-174 | a second update with unchanged geometry issues no setter call and changes nothing, from any state |
| ShadowState.Run | src/index.tsx:178-197 | invoking the update once per trigger (the mount effect, each scroll of the node, each window resize): the display changes only through the setter calls issued, and triggers that all find no node change nothing and issue no call |
| ShadowState.RunCache | src/index.tsx:171-174 | after a run of triggers the cache holds the flags of the last trigger that found a node, or its old value if none did |
| ShadowState.RunCoherent | src/index.tsx:144-174 | a run from a coherent state ends coherent |
| ShadowState.RunCallCount | src/index.tsx:163-169 | a run issues exactly as many setter calls as there are single-flag changes in the sequence of computed flags, starting from the cache |
| ShadowState.ReachableShowsLatest | src/index.tsx:144-174 | from the initial state (all flags off), every reachable state is coherent and displays the flags of the last trigger that found a node |
| ShadowState.RepeatedTriggerIsSilent | src/index.tsx:151-176 | repeating a run's last trigger with unchanged geometry adds no setter call and leaves the state as it was |
| ShadowState.ProcessTriggers | src/index.tsx:144-182 | the loop form of `Run` from the initial state: it ends in the same state and with as many setter calls as `Run`, with display equal to cache, both the last computed flags, having issued one call per single-flag change |
| Frame.Controllers | src/index.tsx:44-59 | the mounted controllers are exactly the axes of the mode the prop selects (off, both, horizontal, vertical), horizontal before vertical, none twice |
| Frame.DispatchCases | src/index.tsx:44-59 | `false` mounts nothing; `true` and an undefined prop (default `true`, line 17) mount both; an axis name mounts that axis alone |
| Frame.ShadowGroup | src/index.tsx:74-112 | a controller renders two shadows on the two edges of its own axis, start edge (top/left) first, the start one driven by the start flag and the end one (bottom/right) by the end flag, 10 pixels thick in the given tint |
| Frame.Opacity | src/index.tsx:131 | opacity is 0 or 1, and 1 exactly when the shadow is visible |
| Frame.Groups | src/index.tsx:44-112 | rendering controllers on a list of axes gives two shadows per axis, each edge of a listed axis gets one driven by that axis's flags, and no edge of an unlisted axis appears |
| Frame.Render | src/index.tsx:44-61 | the frame renders a shadow on exactly the edges of the axes the prop's mode selects, each driven by the displayed flags of its own axis's controller, and two shadows per selected axis, so exactly one per edge |
| Frame.ShadowsOffRendersNothing | src/index.tsx:44-61 | with `shadows` false no shadow renders, whatever the flags |
| Frame.VerticalOnlyRendersNoHorizontalShadow | src/index.tsx:53-59 | with `shadows` `'vertical'` only top and bottom shadows render |
| Frame.InitiallyNoShadowShows | src/index.tsx:144-154 | at mount, and after any triggers none of which found a node, every rendered shadow has opacity 0 |
| Frame.EdgeShadowTracksGeometry | src/index.tsx:71-112 | after triggers whose last found node `n`, each edge of a mounted axis has a shadow that is opaque exactly when the edge rule on `n`'s geometry says there is content beyond that edge |

## Left out

- React rendering, hook scheduling and `forwardRef`: setter calls are modelled as synchronous writes to the displayed flags, and a `useState` setter with an unchanged value is not special-cased (the cache check means none is issued from reachable states).
- Listener registration and removal for `scroll` and `resize`, and the `typeof window` guard (src/index.tsx:178-197): a trigger is modelled only as one invocation of the update step with the node reference's value at that time.
- SimpleBar and MUI `Box` composition, `scrollerProps`/`sx` merging, the `fillHeight` override and the gradient and transition CSS strings: visual styling over libraries that are not part of this model. The tint is carried through as an uninterpreted string.
- Fractional geometry: browsers may report `scrollLeft`/`scrollTop` as non-integers; offsets and extents are modelled as integers and no rounding is reasoned about.
- Geometry.StartFlagMeansContentBefore: states its meaning only for left-to-right or vertical geometry (non-negative offset and visible extent, offset within the content). In right-to-left horizontal scrolling browsers report `scrollLeft` from 0 downwards, so the start (left) flag never turns on there; that case is not given a meaning. The flag rule itself is modelled for all integers.
- Geometry.EndFlagMeansContentAfter: states its meaning only for the same left-to-right or vertical geometry, and reads `offsetWidth`/`offsetHeight` as the viewport extent. Those include the node's border and any native scrollbar, so the lemma describes the far edge exactly only for a node with neither. Under right-to-left scrolling the end (right) flag is on at the resting position although nothing lies to the right; that case is not given a meaning either.
- Content changes that alter the scrollable extent without a scroll or resize trigger do not recompute the flags in the component either; the model reflects this by recomputing only on triggers.
