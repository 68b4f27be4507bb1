# ReCaged simulation core and asset loaders, in Dafny

ReCaged is a racing game whose simulation runs on the ODE physics engine.
This project models the bookkeeping and decision logic around ODE, and the
asset loaders that feed it:

- **Damage buffers and sensors.** Geoms and Bodies carry a damage buffer:
  a threshold, a remaining capacity, an enabled flag and, for a Geom, an
  optional Body to forward damage to. The buffer queues a "depleted" event
  when a hit takes it below zero. Sensors queue a "triggered" event when a
  geom's colliding state changes between steps. `Collision_Feedback` drains
  the joints' reported forces and hits both geoms with the larger one.
- **Per-contact resolution in `Geom::Collision_Callback`.** For each contact
  the model decides which trimesh material owns the triangle, whether the
  pair only senses or really collides, and how friction, bounce and
  spring/damper softness combine. Spring and damping may be infinite.
- **Registries and activity counting.** Objects, Geoms, Bodies, collision
  feedbacks, profiles, road sections and racetime data live in intrusive
  linked lists with head insertion and unlinking. Each list is a class with
  a ghost sequence of its nodes and a `Linked` invariant. An Object counts
  its live components and queues an "inactive" event when the count reaches
  zero.
- **Asset pipeline.**
  - The `Text_File` tokenizer: words, quoted words and `#` comments, over
    a regrown line buffer and word list.
  - The table-driven conf loader.
  - The Wavefront OBJ and MTL loaders: fan triangulation, 1-based indices,
    index repair and material defaults.
  - `Model::Create_Mesh`: flattens the triangles and records material end
    boundaries.
  - The road loader: grid index layout, vertex-row reuse and the binomial
    coefficient recurrence.
  - Profile key lists and the profile list.
  - `Racetime_Data::Find`.

The deferred event queue is represented only by its interface. Its
entries are a sequence of (kind, target) pairs: `Event_Buffer_Add_*`
appends to it, and `Event_Buffer_Remove_All(t)` drops every entry for `t`.
ODE, the file system and the number converters are inputs or function
parameters. Floating-point values are Dafny `real`s. Lengths that need a
square root are parameters. 32-bit unsigned arithmetic is written out
where the source relies on it.

Files: `events`, `damage_buffer`, `object`, `body`, `contact`, `geom`,
`collision_callback`, `collision_feedback`, `model`, `model_types`,
`model_mesh`, `obj`, `text_file`, `conf`, `road`, `road_grid`,
`road_file`, `profile`, `racetime_data`. There are also the helper modules
`wrappers`, `seqs` and `vectors`.

## Model

| member | source | states |
|---|---|---|
| EventBuffers.Purge | src/simulation/geom.cpp:91 | removing a target's events keeps exactly the entries about other targets, and nothing is added |
| EventBuffers.PurgeAll | src/assets/object.cpp:94-98 | purging a list of targets keeps exactly the entries whose target is none of them |
| EventBuffers.PurgeAppend | src/simulation/geom.cpp:91 | purging distributes over concatenation of the queue |
| EventBuffers.PurgeDropsOwnEvent | src/simulation/geom.cpp:91 | an event queued for the destroyed component itself disappears with the purge |
| EventBuffers.PurgeKeepsOtherEvent | src/simulation/geom.cpp:91 | an event about another target survives a purge, in its place at the end |
| EventBuffers.PurgeIdempotent | src/simulation/geom.cpp:396-403 | purging twice is the same as purging once (the "make sure no old event is left" call may repeat) |
| EventBuffers.PurgeLeavesNone | src/simulation/geom.cpp:91 | after a purge no event of any kind about that target remains |
| EventBuffers.CountAppend | src/simulation/geom.cpp:430-431 | the number of events of one kind for one target adds up over concatenated queues |
| EventBuffers.EventQueue.constructor | src/simulation/geom.cpp:430-431 | the queue starts empty |
| EventBuffers.EventQueue.AddDepleted | src/simulation/geom.cpp:430-431 | a Depleted event for the target is appended and nothing else changes |
| EventBuffers.EventQueue.AddTriggered | src/simulation/geom.cpp:468-472 | a Triggered event for the target is appended and nothing else changes |
| EventBuffers.EventQueue.AddInactive | src/assets/object.cpp:107-111 | an Inactive event for the target is appended and nothing else changes |
| EventBuffers.EventQueue.RemoveAll | src/simulation/geom.cpp:91 | the queue afterwards is exactly the purge of the old queue for the target |
| DamageBuffer.Configure | src/simulation/geom.cpp:387-405 | the buffer event is enabled iff threshold, buffer and script are all given and positive; when enabled the threshold and level are the new ones, when disabled they keep their old values |
| DamageBuffer.DamageMonotone | src/simulation/geom.cpp:420-434 | over a non-negative step a harder hit leaves no more capacity than a softer one (and never more than before), and raises Depleted whenever the softer one does |
| DamageBuffer.SplitHit | src/simulation/geom.cpp:420-434 | two accepted hits in one step remove the same capacity as one hit of their summed force, and raise at most as many Depleted events as that single hit |
| DamageBuffer.SplitHitLosesEvent | src/simulation/geom.cpp:425-434 | a full buffer hit twice so that the first hit lands exactly on zero raises no Depleted event, though one hit of the summed force would |
| DamageBuffer.RunKeepsSettings | src/simulation/geom.cpp:412-435 | any run of non-negative hits keeps the settings and never raises the level |
| DamageBuffer.NoEventsOnceEmpty | src/simulation/geom.cpp:433-434 | once the level is at or below zero, further hits raise no event |
| DamageBuffer.AtMostOneDepletion | src/simulation/geom.cpp:424-434 | a run of hits raises at most one Depleted event, and only when it starts positive and ends negative |
| DamageBuffer.RunSnoc | src/simulation/geom.cpp:420-434 | one more hit at the end of a run acts on the buffer the run left, and adds one event exactly when that hit depletes it |
| DamageBuffer.IncreaseRequeues | src/simulation/geom.cpp:437-443 | each Increase_Buffer that leaves the buffer negative queues a fresh Depleted event |
| Bodies.DragScaleBounds | src/simulation/body.cpp:138 | for non-negative speed, density, drag and step and positive mass the drag scale is defined, lies in (0,1], and is 1 when there is nothing to brake |
| Bodies.DragScale | src/simulation/body.cpp:138 | the scale times (1 + speed·density·drag/mass·step) is 1, i.e. the velocity is divided by that factor |
| Bodies.LinearDragBrakes | src/simulation/body.cpp:128-150 | with non-negative density, drag and step and a positive mass, linear drag keeps the sign of every component of the wind-relative velocity and never makes it larger, and leaves the velocity unchanged when nothing brakes |
| Bodies.AngularDragBrakes | src/simulation/body.cpp:184-195 | under the same conditions angular drag keeps the sign of every spin component and never makes it larger, and leaves the spin unchanged when nothing brakes |
| Bodies.ScaleBrakes | src/simulation/body.cpp:138-143 | scaling a vector by a factor in (0,1] brakes every component towards zero without flipping it |
| Bodies.Body.constructor | src/simulation/body.cpp:33-55 | the new body heads the body list, raises its owner's activity by one, takes the default drags in non-axis mode and has no buffer event |
| Bodies.Body.Set_Linear_Drag | src/simulation/body.cpp:96-100 | only the first drag component is set, the others are kept, and axis mode is switched off |
| Bodies.Body.Set_Axis_Linear_Drag | src/simulation/body.cpp:102-109 | all three drag components are set and axis mode is switched on |
| Bodies.Body.Set_Angular_Drag | src/simulation/body.cpp:111-115 | only the first angular drag component is set and axis mode is switched off |
| Bodies.Body.Set_Axis_Angular_Drag | src/simulation/body.cpp:117-124 | all three angular drag components are set and axis mode is switched on |
| Bodies.Body.Linear_Drag | src/simulation/body.cpp:130-152 | the new linear velocity is the drag-scaled one relative to the wind |
| Bodies.Body.Angular_Drag | src/simulation/body.cpp:184-195 | the new angular velocity is the drag-scaled one |
| Bodies.Body.Drag | src/simulation/body.cpp:270-280 | the axis flags choose between the axis drag and the simple drag, separately for linear and angular velocity |
| Bodies.Body.Set_Buffer_Event | src/simulation/body.cpp:226-245 | the buffer settings follow DamageBuffer.Configure, the script is kept only when enabled, and every event about this body is removed in both branches |
| Bodies.Body.Damage_Buffer | src/simulation/body.cpp:247-264 | the buffer follows DamageBuffer.Damage, and exactly one Depleted event is queued exactly when the level crosses below zero |
| Bodies.Body.Destroy | src/simulation/body.cpp:58-78 | the body leaves the list, the others keep their order, its events are purged and the owner's activity drops by one, queueing Inactive when it reaches zero |
| Bodies.BodyList.Push | src/simulation/body.cpp:38-43 | the pushed body is the new head, before all the old bodies in their order |
| Bodies.BodyList.Splice | src/simulation/body.cpp:63-70 | the head moves when the node was the head; only the neighbours' prev and next links change, to bypass the node |
| Bodies.BodyList.Unlink | src/simulation/body.cpp:63-70 | the list stays well linked and holds the old nodes without the removed one, in order |
| Bodies.BodyList.Physics_Step | src/simulation/body.cpp:266-282 | every body in the list gets its drag applied once, each by its own axis flags |
| Contacts.Recip | src/simulation/geom.cpp:346-348 | the floating-point reciprocal on non-negative springs: infinity exactly for 0, 0 exactly for infinity, a true inverse otherwise |
| Contacts.RecipInvolutive | src/simulation/geom.cpp:346-348 | taking the reciprocal twice gives back the value |
| Contacts.SeriesIdentities | src/simulation/geom.cpp:346-348 | the series combination is symmetric, has infinity as its neutral element and 0 as its absorbing one |
| Contacts.SeriesSofter | src/simulation/geom.cpp:346 | two finite positive springs in series are softer than either |
| Contacts.SeriesNonNeg | src/simulation/geom.cpp:346-348 | the series combination of non-negative values is non-negative |
| Contacts.SeriesSpringFinite | src/simulation/geom.cpp:343-346 | when neither spring is 0 and at least one is finite, the combined spring is finite and positive |
| Contacts.FindMaterial | src/simulation/geom.cpp:269-271 | the search stops at the first material whose end is past the triangle, or at the count when there is none |
| Contacts.FindMaterialFrom | src/simulation/geom.cpp:269-271 | the same search from index i: every skipped end is at or before the triangle |
| Contacts.MaterialRegionUnique | src/simulation/geom.cpp:268-274 | with ascending ends, a triangle inside the mesh has exactly one material whose range holds it, and the search finds it |
| Contacts.Soften | src/simulation/geom.cpp:350-353 | the soft ERP and CFM satisfy erp = h·k·cfm and erp + d·cfm = 1, ERP lies in [0,1], and CFM is 0 exactly for infinite damping |
| Contacts.SoftenRoundTrip | src/simulation/geom.cpp:352-353 | the spring and damping can be recovered from the ERP and CFM: k = erp/(h·cfm) and d = (1-erp)/cfm |
| Contacts.Combine | src/simulation/geom.cpp:297-354 | a contact is configured unless one of the surfaces is a sensor (spring 0) |
| Contacts.SoftOf | src/simulation/geom.cpp:342-354 | the ERP/CFM override is used exactly when at least one spring is finite |
| Contacts.CombineSymmetric | src/simulation/geom.cpp:316-354 | the combined contact surface does not depend on which geom is first |
| Contacts.DefaultsCollideRigidly | src/simulation/geom.cpp:117-128 | two default surfaces collide with no friction, no bounce and no softness |
| Contacts.SoftAgainstHard | src/simulation/geom.cpp:343-353 | a finite positive spring against a default (infinitely hard) surface is softened with that spring and damping unchanged |
| Contacts.WheelChoice | src/simulation/geom.cpp:222-229 | the first geom is the wheel iff it alone is a wheel and it has a body; the second likewise; otherwise no wheel |
| Contacts.WheelChoiceSwap | src/simulation/geom.cpp:222-229 | exchanging the geoms exchanges which one is taken as the wheel |
| Collisions.Resolve | src/simulation/geom.cpp:297-378 | a contact is a sensor contact exactly when a spring is 0; otherwise it goes to the wheel exactly when one side is the wheel, carrying the other side's surface; otherwise it becomes a joint asking for feedback as requested; the configured surface is always the combined one |
| Collisions.Swapped | src/simulation/geom.cpp:222-229 | swapping the geoms exchanges first and second wheel and keeps "no wheel" |
| Collisions.ResolveSwap | src/simulation/geom.cpp:297-378 | resolving with the geoms exchanged gives the same outcome, with the wheel side exchanged |
| Collisions.FeedbackCount | src/simulation/geom.cpp:376-377 | the number of feedback entries created is at most the number of contacts and is 0 iff no joint asks for one |
| Collisions.FeedbackCountSnoc | src/simulation/geom.cpp:376-377 | each further contact adds one feedback entry exactly when it is a joint that asks for one |
| Collisions.SurfacesAt | src/simulation/geom.cpp:252-295 | the surface used for each contact is the one chosen for its triangle |
| Collisions.Firsts | src/simulation/geom.cpp:257-263 | the first triangle index of every contact, in order |
| Collisions.Seconds | src/simulation/geom.cpp:278-284 | the second triangle index of every contact, in order |
| Collisions.AnyTriggersExists | src/simulation/geom.cpp:297-302 | a geom is marked colliding iff some contact's other surface has a non-zero spring |
| Collisions.AnyTriggersPrefix | src/simulation/geom.cpp:297-302 | the colliding flag after one more contact is the old flag or that contact's trigger |
| Collisions.FlagAll | src/simulation/geom.cpp:257-263 | flagging keeps the number of triangle flags |
| Collisions.FlagAllMeaning | src/simulation/geom.cpp:257-263 | a triangle's flag afterwards is its old flag, or set when the geom has per-triangle data and some contact hit that triangle |
| Collisions.FlagAllSnoc | src/simulation/geom.cpp:257-263 | flagging one more contact's triangle is one more step of the flag update |
| Collisions.Outcomes | src/simulation/geom.cpp:249-379 | the outcome of each contact is resolved independently from its own two surfaces |
| Collisions.NonSensorTriggersBoth | src/simulation/geom.cpp:297-309 | a contact that is not a sensor contact marks both geoms as colliding |
| Collisions.TouchedAll | src/simulation/geom.cpp:249-302 | the flag arrays keep their sizes over all contacts |
| Collisions.TouchedAllMeaning | src/simulation/geom.cpp:249-302 | over all contacts, each colliding flag is set by any trigger of the other side and each triangle flag by any hit |
| Collisions.TouchedAllSnoc | src/simulation/geom.cpp:249-302 | the state after one more contact is one more Touched step |
| Collisions.Touch_Both | src/simulation/geom.cpp:252-302 | the surfaces chosen are those of the contact's triangles, and the colliding and triangle flags change as Touched says |
| Collisions.Contact_Point | src/simulation/geom.cpp:249-378 | one contact: its outcome is Resolve of its surfaces, the flags change as Touched says, and one feedback entry for this pair is prepended exactly when it is a joint asking for one |
| Collisions.Contact_Step | src/simulation/geom.cpp:249-378 | one loop round keeps the loop invariant, moving to the next contact |
| Collisions.Contact_Loop | src/simulation/geom.cpp:249-379 | the loop over all contacts reaches the state that the whole plan describes |
| Collisions.Finished | src/simulation/geom.cpp:249-379 | at the end of the loop the outcomes, colliding flags, triangle flags and feedback list are the ones stated for all contacts |
| Collisions.PlanOf | src/simulation/geom.cpp:249-253 | the plan built from the geoms' state before the loop meets the loop's starting invariant |
| Collisions.Pair_Callback | src/simulation/geom.cpp:200-379 | for two geoms on different bodies: the outcomes are those of Outcomes; each colliding flag is set by any trigger of the other side; triangle flags are set for every hit triangle; exactly FeedbackCount new feedback entries, all for this pair, are put before the old ones |
| Collisions.Collision_Callback | src/simulation/geom.cpp:180-380 | geoms on the same body (or both without a body) change nothing and give no outcome; otherwise every contact is resolved with the wheel chosen by WheelChoice, each colliding flag is raised by any trigger surface of the other side, every hit triangle is flagged, and exactly FeedbackCount new entries for this pair go before the old feedback entries |
| Geoms.Geom.constructor | src/simulation/geom.cpp:43-86 | the new geom heads the geom list, raises its owner's activity by one, has the default surface, no triangles, no materials and every event off |
| Geoms.Geom.Destroy | src/simulation/geom.cpp:88-114 | the geom leaves the list with the others in order, its events are purged and the owner's activity drops by one, queueing Inactive when it reaches zero |
| Geoms.Geom.Find_Material_Surface | src/simulation/geom.cpp:133-164 | no materials gives no surface; the first call allocates one copy of the geom's surface per material; the result is the first material with that name, or none when no material has it |
| Geoms.Geom.ClearOwn | src/simulation/geom.cpp:171-175 | the geom and all of its triangles are no longer colliding |
| Geoms.Geom.Touch_Triangle | src/simulation/geom.cpp:257-276 | the contact's triangle is flagged (when the geom is a trimesh and the side is not -1) and its surface is the one of its material |
| Geoms.Geom.Set_Buffer_Event | src/simulation/geom.cpp:387-405 | the buffer settings follow DamageBuffer.Configure and every event about this geom is removed in both branches |
| Geoms.Geom.Set_Buffer_Body | src/simulation/geom.cpp:407-410 | forces are forwarded to the given body from now on |
| Geoms.Geom.Damage_Buffer | src/simulation/geom.cpp:412-435 | with a force body, that body's buffer takes the damage and this geom's is unchanged; otherwise this buffer is damaged; a Depleted event is queued for the damaged one exactly when its level crosses below zero |
| Geoms.Geom.Increase_Buffer | src/simulation/geom.cpp:437-443 | the level rises by the amount and a Depleted event is queued whenever it is still negative |
| Geoms.Geom.Set_Sensor_Event | src/simulation/geom.cpp:446-457 | the sensor is on iff either script is given; turning it on resets the last state to "not colliding", turning it off keeps the old scripts and state |
| Geoms.SensorEvents | src/simulation/geom.cpp:460-477 | at most one Triggered event per geom |
| Geoms.SensorEventsMembers | src/simulation/geom.cpp:465-472 | an event is queued iff it is a Triggered event for a sensor geom whose collision state differs from its last one |
| Geoms.NoFlipNoEvents | src/simulation/geom.cpp:465-472 | when no sensor changed state, the step queues nothing |
| Geoms.SurfaceAt | src/simulation/geom.cpp:252-295 | the surface for a contact is the geom's own surface or one of its per-material surfaces, and it is well formed when they are |
| Geoms.Flag | src/simulation/geom.cpp:257-263 | exactly the contact's triangle is added to the flags, and only when the geom has triangles |
| Geoms.GeomList.Push | src/simulation/geom.cpp:53-59 | the pushed geom is the new head, before all the old geoms in their order |
| Geoms.GeomList.Splice | src/simulation/geom.cpp:93-100 | the head moves when the node was the head; only the neighbours' links change, to bypass the node |
| Geoms.GeomList.Unlink | src/simulation/geom.cpp:93-100 | the list stays well linked and holds the old nodes without the removed one, in order |
| Geoms.GeomList.Clear_Collisions | src/simulation/geom.cpp:167-177 | afterwards no geom in the list and none of their triangles is colliding |
| Geoms.GeomList.Physics_Step | src/simulation/geom.cpp:460-477 | one Triggered event is queued, in list order, for each sensor geom whose state flipped; each sensor's last state becomes its current one, so a second step would queue nothing |
| CollisionFeedback.Feedback.constructor | src/simulation/collision_feedback.cpp:26-45 | the entry remembers both geoms, starts with both forces zero and becomes the head of the list |
| CollisionFeedback.Feedback.Apply | src/simulation/collision_feedback.cpp:54-68 | the force applied is the larger magnitude; for two distinct geoms that forward to no body, each buffer takes that force and each queues Depleted exactly when it crosses below zero, geom1 first; for geoms that forward to no body (distinct or the same geom twice), the buffers and the queue move on exactly as HitBoth says from any buffer map that matched before |
| CollisionFeedback.Force | src/simulation/collision_feedback.cpp:55-68 | the force is the larger of the two magnitudes (either one on a tie) |
| CollisionFeedback.ForcesOf | src/simulation/collision_feedback.cpp:52-74 | one force per entry, each that entry's Force |
| CollisionFeedback.FeedbackList.Advance | src/simulation/collision_feedback.cpp:71-73 | the head entry leaves the list and the rest stays linked |
| CollisionFeedback.FeedbackList.Physics_Step | src/simulation/collision_feedback.cpp:47-75 | every entry is applied exactly once, newest first, with its own force, and the list is left empty; when no entry's geom forwards its damage to a body, the buffers end as the fold Drain of all entries over the buffers before the step, and the queue gains exactly the events that fold queues, in order |
| CollisionFeedback.FeedbackList.Drain_Head | src/simulation/collision_feedback.cpp:52-73 | one round of the loop: the head entry is applied with its force and leaves the list, and the buffers and queue advance by one more entry of the Drain fold |
| CollisionFeedback.HitsOnHarmful | src/simulation/collision_feedback.cpp:54-68 | with non-negative forces and step, every hit a geom takes during the step is a harmful one |
| CollisionFeedback.HitBothPerGeom | src/simulation/collision_feedback.cpp:58-68 | seen from one geom, one entry extends that geom's damage run by the hits it takes from the entry (two when it is both geom1 and geom2) and queues for it the events those hits add |
| CollisionFeedback.DrainPerGeom | src/simulation/collision_feedback.cpp:52-74 | seen from one geom, the whole drain is the damage run of the hits that geom takes, in list order, and the Depleted events queued for it are exactly those the run raises |
| CollisionFeedback.DrainPerGeomNext | src/simulation/collision_feedback.cpp:52-74 | the per-geom view of the drain carries over from the first k-1 entries to the first k |
| CollisionFeedback.DrainDepletesOnce | src/simulation/collision_feedback.cpp:52-74 | with non-negative forces and step, one physics step queues at most one Depleted event per geom that takes its own damage, however many entries name it, and only when its level went from above zero to below it |
| Objects.Object.constructor | src/assets/object.cpp:65-77 | the new object heads the object list, with no components and activity 0 |
| Objects.Object.Increase_Activity | src/assets/object.cpp:102-105 | the activity counter goes up by one |
| Objects.Object.Decrease_Activity | src/assets/object.cpp:107-111 | the activity counter goes down by one and an Inactive event is queued exactly when it reaches zero |
| Objects.Object.Attach | src/simulation/body.cpp:33 | a new component goes on top of the object's component chain |
| Objects.Object.ReleaseTop | src/assets/object.cpp:94-95 | deleting the top component purges its events, takes it off the chain and lowers the activity by one, queueing Inactive at zero |
| Objects.Object.ReleaseAll | src/assets/object.cpp:94-95 | after the loop the chain is empty, the activity dropped by the number of components, and apart from events about the object itself every event of every component is gone |
| Objects.Object.Destroy | src/assets/object.cpp:80-99 | the object leaves the list with the others in order, all its components are released, and the queue keeps exactly the events about neither the components nor the object, so no Inactive event for the object survives |
| Objects.Object.ReleaseAndPurge | src/assets/object.cpp:94-98 | releasing every component and then purging the object leaves exactly the events about none of them |
| Objects.ObjectList.Push | src/assets/object.cpp:67-71 | the pushed object is the new head, before all the old objects in their order |
| Objects.ObjectList.Splice | src/assets/object.cpp:84-90 | the head moves when the node was the head; only the neighbours' links change, to bypass the node |
| Objects.ObjectList.Unlink | src/assets/object.cpp:84-90 | the list stays well linked and holds the old nodes without the removed one, in order |
| Objects.ObjectList.DestroyAll | src/assets/object.cpp:114-118 | the list ends empty and every object that was in it has no components left |
| Objects.StillValid | src/assets/object.cpp:84-90 | removing one object keeps every other object's counter consistent, and the removed one is no longer listed |
| Objects.PurgeAllStep | src/assets/object.cpp:94-95 | purging the first k+1 components is purging the first k and then component k |
| Objects.PurgeAllSnoc | src/assets/object.cpp:94-95 | purging one more target at the end is one more purge |
| Objects.PurgeCommute | src/assets/object.cpp:94-98 | the order in which two targets are purged does not matter |
| Objects.PurgeAfterRelease | src/assets/object.cpp:94-98 | an Inactive event queued for the object while a component is released is removed by the object's final purge |
| Objects.ReleaseStep | src/assets/object.cpp:94-98 | one release keeps the loop invariant of the component loop, seen through the final purge |
| Objects.Module.constructor | src/assets/object.cpp:40-59 | every debug flag is false and all ten model slots and the one geom slot are empty |
| ModelMeshes.Mats | src/assets/model_mesh.cpp:166-173 | the number of recorded materials is at most the number of materials (empty ones are not counted) |
| ModelMeshes.Flat | src/assets/model_mesh.cpp:216-262 | the flattened triangle list has exactly one entry per triangle of the model |
| ModelMeshes.Idx | src/assets/model_mesh.cpp:224-227 | the index array has three entries per triangle |
| ModelMeshes.Bounds | src/assets/model_mesh.cpp:264-272 | one material boundary per non-empty material |
| ModelMeshes.TooBigAgreesWithoutWrap | src/assets/model_mesh.cpp:186-191 | while three times the triangle count fits 32 bits, the check as written is the intended size check |
| ModelMeshes.TooBigAsWrittenMisses | src/assets/model_mesh.cpp:187 | with 0x55555556 triangles the 32-bit product wraps to 2, so the check as written lets a too-big mesh through |
| ModelMeshes.FlatSnoc | src/assets/model_mesh.cpp:216-262 | each material appends its own triangles, in order, to the flattened list |
| ModelMeshes.FlatPrefix | src/assets/model_mesh.cpp:216-262 | the triangles of the first j materials are a prefix of the flattened list |
| ModelMeshes.FlatAt | src/assets/model_mesh.cpp:220-261 | triangle k of material j lands at position tcount + k, where tcount counts the triangles of the materials before it |
| ModelMeshes.IdxAt | src/assets/model_mesh.cpp:224-227 | entries 3t, 3t+1 and 3t+2 of the index array are the three vertex indices of triangle t |
| ModelMeshes.FlatVerticesIn | src/assets/model_mesh.cpp:235-237 | when every triangle of the model refers to existing vertices, so does every flattened triangle |
| ModelMeshes.MaterialOf | src/assets/model_mesh.cpp:216-262 | every flattened triangle comes from exactly one position of one material |
| ModelMeshes.BoundsShape | src/assets/model_mesh.cpp:264-272 | the material boundaries strictly ascend, lie in 1..tris, the last one is the triangle count, and there is one exactly when there is a triangle |
| ModelMeshes.BoundsPrefix | src/assets/model_mesh.cpp:264-272 | the boundaries of the first j materials are a prefix of all boundaries |
| ModelMeshes.BoundsAt | src/assets/model_mesh.cpp:265-269 | a non-empty material's boundary holds its name and the running triangle count after its triangles |
| ModelMeshes.MatsSnoc | src/assets/model_mesh.cpp:264-272 | a material adds one boundary exactly when it has triangles |
| ModelMeshes.ModelMesh.constructor | src/assets/model_mesh.cpp:43-57 | the mesh keeps the arrays it is given, with the triangle count and material list set afterwards |
| ModelMeshes.Create_Mesh | src/assets/model_mesh.cpp:154-288 | an existing mesh is returned as is; no triangles, or a vertex or index count over INT_MAX, gives none; otherwise fresh arrays hold a copy of the vertices, the flattened indices, one unit normal per triangle and one boundary per non-empty material |
| ModelMeshes.Count | src/assets/model_mesh.cpp:166-173 | the counting loop gives the total triangle count and the number of non-empty materials |
| ModelMeshes.Copy_Vertices | src/assets/model_mesh.cpp:206-207 | the fresh vertex array is a copy of the model's vertices |
| ModelMeshes.Fill | src/assets/model_mesh.cpp:211-273 | after the material loop the index and normal arrays hold every flattened triangle and the material array every boundary |
| ModelMeshes.Record | src/assets/model_mesh.cpp:265-272 | recording one boundary extends the recorded prefix by one |
| ModelMeshes.Copy_Triangles | src/assets/model_mesh.cpp:220-262 | the triangle loop of one material copies its triangles after the earlier ones and advances tcount by its triangle count |
| ModelMeshes.Put_Triangle | src/assets/model_mesh.cpp:222-261 | one triangle's indices and normal extend the copied prefix by one |
| ModelMeshes.EmittedAt | src/assets/model_mesh.cpp:224-227 | in a built mesh, the three indices of triangle k are the corners of flattened triangle k |
| ModelMeshes.BuiltShaped | src/assets/model_mesh.cpp:264-285 | a built mesh's boundaries ascend and end at its triangle count, so the geom's material lookup can use them |
| ModelMeshes.Create_Geom | src/assets/model_mesh.cpp:100-137 | the new geom belongs to the object, has one collision flag per triangle, the mesh's material list, no per-material surfaces yet and the default surface |
| MeshTypes.Ends | src/simulation/geom.cpp:269-270 | the end index of every material, in order |
| Models.Dec | src/assets/obj.cpp:106-117 | a 1-based unsigned index becomes 0-based; 0 wraps to the error index 2^32-1 |
| Models.FindMaterial | src/assets/obj.cpp:154-159 | the result is the first material with that name, or the error index when there is none |
| ObjLoader.Stored | src/assets/obj.cpp:106-117 | an index is kept as a 32-bit unsigned value: unchanged when it fits, wrapped otherwise |
| ObjLoader.ParseCorner | src/assets/obj.cpp:95-118 | a corner is read exactly when the `%u/%u/%u` scan reads at least one number; v becomes 0-based; t is 0 unless it was read; n is 0-based when all three were read, the error index after `v/t`, and after a bare `v` it is taken from a `v//n` scan when that succeeds |
| ObjLoader.CornerOf | src/assets/obj.cpp:99-118 | once the scan count is known, the corner always exists |
| ObjLoader.CornerAsWritten | src/assets/obj.cpp:97-118 | as written: a scan that returns EOF (-1) is not caught by `count == 0`, so the previous word's vertex index is reused with default t and n |
| ObjLoader.Corners | src/assets/obj.cpp:90-103 | the corners read, in order, stop at the first malformed index word and keep the ones before it |
| ObjLoader.Fan | src/assets/obj.cpp:123-149 | a face of n corners gives n-2 triangles, triangle k being (first, k+1, k+2) |
| ObjLoader.FanSnoc | src/assets/obj.cpp:123-137 | each corner after the second adds one triangle made of the first corner, the previous corner and the new one |
| ObjLoader.FanSharesEdges | src/assets/obj.cpp:125-133 | consecutive fan triangles share the first corner and an edge |
| ObjLoader.FaceTriangleCount | src/assets/obj.cpp:90-150 | a face line whose every index word is well formed adds exactly (word count - 2) triangles |
| ObjLoader.Face | src/assets/obj.cpp:90-150 | the index loop appends the face's fan to the current material and changes no other material |
| ObjLoader.CornersAsWritten | src/assets/obj.cpp:97-118 | the as-written corner list has at most one corner per word |
| ObjLoader.EmptyWordAsWritten | src/assets/obj.cpp:97-99 | for `f 1 2 3 ""` the loop as written adds a second triangle from a stale index, while the intended loop adds one |
| ObjLoader.Vertices | src/assets/obj.cpp:57-63 | at most one vertex per line |
| ObjLoader.Normals | src/assets/obj.cpp:65-71 | at most one normal per line |
| ObjLoader.Texcoords | src/assets/obj.cpp:73-78 | at most one texture coordinate per line |
| ObjLoader.Face_Line | src/assets/obj.cpp:80-151 | a face line with no current material first adds the default material and makes it current, then appends its triangles there |
| ObjLoader.Obj_Line | src/assets/obj.cpp:56-167 | one line: `v`, `vn` and `vt` append to their lists, `f` adds triangles, `usemtl` switches only to a known material, `mtllib` loads the named file's materials as MaterialsLoaded says (appended, then the ambient fix over every material), anything else changes nothing; the current material stays valid |
| ObjLoader.RepairTriangle | src/assets/obj.cpp:204-228 | each group of indices (vertex, texture, normal) is kept when all three are in range and reset otherwise (to 0, 0 or the error index); the result is valid, and unchanged exactly when the triangle was valid |
| ObjLoader.RepairedValid | src/assets/obj.cpp:196-231 | after the repair every triangle is valid and refers to existing vertices |
| ObjLoader.Repair_Material | src/assets/obj.cpp:198-229 | one material's triangles are repaired in place and every other material is unchanged |
| ObjLoader.Repair | src/assets/obj.cpp:196-231 | every material's triangles are repaired |
| ObjLoader.Load_OBJ | src/assets/obj.cpp:29-239 | a missing file fails and changes nothing; otherwise vertices and normals are those of the file's lines, the materials are those ObjFold gives for the file's lines (as they stand on failure, with every triangle index-checked on success), the load succeeds iff some material and some vertex exist; on failure the texcoords are the old ones and the file's, on success a texcoord (0,0) is added when there is none, and every triangle is valid and on existing vertices |
| ObjLoader.ListsSnoc | src/assets/obj.cpp:54-168 | one more line extends the vertex, normal and texcoord lists by that line's contribution |
| ObjLoader.Parse_OBJ | src/assets/obj.cpp:54-168 | after the line loop the lists hold the old entries followed by those of every line, in order, and the materials are those of ObjFold: each line applied in turn as Obj_Line applies it, `mtllib` lines with their ambient fix over the earlier materials, starting with no current material |
| ObjLoader.ObjSteppedUnique | src/assets/obj.cpp:56-167 | one OBJ line has exactly one effect on the materials and the current material, the one ObjNext computes |
| ObjLoader.ObjFoldOnlyAppends | src/assets/obj.cpp:54-168 | reading OBJ lines never removes, renames or retextures a material that was already there and only appends to its triangles; its colours change at most by the ambient fix a loading `mtllib` line applies |
| ObjLoader.Check_Indices | src/assets/obj.cpp:179-231 | a (0,0) texture coordinate is added when there is none, and afterwards every triangle is repaired, valid and on existing vertices |
| ObjLoader.NewNames | src/assets/obj.cpp:259-264 | the `newmtl` names in order; none exactly when no line is a `newmtl` line |
| ObjLoader.Property | src/assets/obj.cpp:273-325 | a property line keeps the name and triangles; shininess only changes to a value at most 128; ambient only changes on a 4-word `Ka` line, diffuse only on `Kd`, the texture only on `map_Kd` |
| ObjLoader.Mtl_Line | src/assets/obj.cpp:259-328 | one line: `newmtl` appends a default material with that name and makes it current; other lines change only the current material, or nothing before the first `newmtl` |
| ObjLoader.FixAmbient | src/assets/obj.cpp:339-351 | a zero ambient colour becomes the diffuse colour; a non-zero ambient is left alone; nothing else changes |
| ObjLoader.Load_MTL | src/assets/obj.cpp:241-355 | a missing file fails; otherwise the materials are those MtlFold gives for the file's lines, with every ambient fixed on success, which is MaterialsLoaded of the old materials and the parsed new ones; the load succeeds iff there is a `newmtl` line, one material per `newmtl` is appended with that name, failure changes nothing, and on success no material keeps a zero ambient beside a nonzero diffuse |
| ObjLoader.Parse_MTL | src/assets/obj.cpp:257-329 | after the line loop the materials and current material are those of MtlFold over the lines; one material per `newmtl` line has been appended, in order, and the current material is the last of them |
| ObjLoader.MtlSteppedUnique | src/assets/obj.cpp:259-328 | one MTL line has exactly one effect on the materials and the current material, the one MtlNext computes |
| ObjLoader.MtlFoldParsed | src/assets/obj.cpp:257-329 | the fold over MTL lines appends one default-based material per `newmtl` name, in order, leaves the earlier materials alone and makes the last new one current |
| ObjLoader.MtlStep | src/assets/obj.cpp:259-328 | one more line keeps the loop's description of the materials so far |
| ObjLoader.Fix_Ambients | src/assets/obj.cpp:339-351 | materials 0..last get their ambient fixed and the ones after are unchanged |
| ObjLoader.MaterialsLoaded | src/assets/obj.cpp:339-351 | a file's materials are appended and, when there is at least one, every material afterwards has an ambient colour set (zero only beside a zero diffuse); names, textures and triangles are kept, and colours change only by the ambient fix; a file without materials changes nothing |
| ObjLoader.Load_Material | src/assets/obj.cpp:164-166 | an `mtllib` load leaves exactly the MaterialsLoaded materials |
| TextFiles.SkipSpaces | src/assets/text_file.cpp:176-177 | the scan stops at the first non-whitespace character, or at the end |
| TextFiles.QuoteEnd | src/assets/text_file.cpp:204-205 | the scan stops at the closing quotation mark, or at the end of the line |
| TextFiles.WordEnd | src/assets/text_file.cpp:220-222 | the scan stops at the first whitespace character, or at the end |
| TextFiles.LineStop | src/assets/text_file.cpp:240-251 | the position just past the next newline, or the end of the file |
| TextFiles.Past | src/assets/text_file.cpp:207-213 | scanning resumes one past the terminator that was overwritten, or stays at the end of the line |
| TextFiles.WordAt | src/assets/text_file.cpp:180-230 | a word found from position j lies inside the line and scanning always moves forward |
| TextFiles.NextWord | src/assets/text_file.cpp:173-231 | one round of the word loop: a word found lies inside the line and scanning always moves forward |
| TextFiles.Join | src/assets/text_file.cpp:169-238 | joining no words gives the empty line |
| TextFiles.SpaceSkipped | src/assets/text_file.cpp:176-177 | a whitespace character before the scan position changes no word |
| TextFiles.TokensStep | src/assets/text_file.cpp:173-231 | the words of a line are the word the next round finds followed by the words after it, or none when the round ends the line |
| TextFiles.TokensAt | src/assets/text_file.cpp:173-231 | the word list from a position where a word was found starts with that word |
| TextFiles.FirstWord | src/assets/text_file.cpp:215-230 | a plain word at the scan position is found exactly, ending at the next whitespace |
| TextFiles.ShiftScan | src/assets/text_file.cpp:176-222 | the three character scans do not depend on what precedes the position |
| TextFiles.ShiftWordAt | src/assets/text_file.cpp:180-230 | finding a word does not depend on what precedes the position |
| TextFiles.ShiftNext | src/assets/text_file.cpp:173-231 | one round of the word loop does not depend on what precedes the position |
| TextFiles.ShiftTokens | src/assets/text_file.cpp:173-231 | the words from a position do not depend on what precedes it |
| TextFiles.LeadingSpace | src/assets/text_file.cpp:176-177 | leading whitespace does not change a line's words |
| TextFiles.HeadWord | src/assets/text_file.cpp:215-230 | a plain word followed by the rest of a line is the first word of the line |
| TextFiles.JoinTail | src/assets/text_file.cpp:169-238 | plain words joined by spaces, before any tail, are split back into the same words followed by the tail's |
| TextFiles.JoinSplits | src/assets/text_file.cpp:169-238 | splitting plain words joined by spaces gives back exactly those words |
| TextFiles.CommentEndsLine | src/assets/text_file.cpp:180-181 | everything from a `#` on is ignored: words joined and followed by a comment give back just the words |
| TextFiles.QuotedWord | src/assets/text_file.cpp:188-213 | a quoted word is one word, without its quotation marks, even when it holds spaces or `#` |
| TextFiles.WordEndAt | src/assets/text_file.cpp:220-222 | the word scan stops at the first whitespace after a run of non-whitespace |
| TextFiles.QuoteEndAt | src/assets/text_file.cpp:204-205 | the quote scan stops at the first quotation mark |
| TextFiles.SeekFrom | src/assets/text_file.cpp:115-138 | where Seek_First stops: a character that is neither whitespace nor `#`, skipping whitespace and whole comment lines |
| TextFiles.FileLines | src/assets/text_file.cpp:91-113 | the word lists Read_Line returns one after the other, none of them empty |
| TextFiles.LineTaken | src/assets/text_file.cpp:91-113 | a line read after seeking gives words exactly when the file has another word line; those words are the next line's, and the lines after are the remaining ones |
| TextFiles.CommentLineSkipped | src/assets/text_file.cpp:126-130 | a `#` line is skipped whole: seeking in it lands where seeking in the rest of the file lands |
| TextFiles.LineStopAt | src/assets/text_file.cpp:240-251 | the line ends right after its first newline |
| TextFiles.LineStopShift | src/assets/text_file.cpp:240-251 | the end of the line does not depend on what precedes the position |
| TextFiles.SeekShift | src/assets/text_file.cpp:115-138 | seeking does not depend on what precedes the position |
| TextFiles.FirstNul | src/assets/text_file.cpp:151 | `strlen`: the first NUL from k, or the end, with no NUL before it |
| TextFiles.FirstNulAt | src/assets/text_file.cpp:151 | the length stops at the first NUL |
| TextFiles.WordList | src/assets/text_file.cpp:253-269 | one C string per listed word |
| TextFiles.FgetsEnd | src/assets/text_file.cpp:148 | fgets reads up to n-1 characters, stopping after a newline or at the end of the file |
| TextFiles.FgetsInLine | src/assets/text_file.cpp:148-155 | a read that stops before the end of the line leaves the rest of the same line to read, and does not end in a newline |
| TextFiles.LineStopNone | src/assets/text_file.cpp:240-251 | with no newline ahead, the line runs to the end of the file |
| TextFiles.ExactFillDropped | src/assets/text_file.cpp:148-155 | a last line without a newline that exactly fills the buffer is reported as no line at all |
| TextFiles.GrowCopyAsWritten | src/assets/text_file.cpp:262-264 | as written: the copy of word_count entries from the old array overreads when the count exceeds the old size |
| TextFiles.GrowCopyOverreads | src/assets/text_file.cpp:255-264 | when the list grows, word_count is already one more than the old array holds, so the copy reads past it; one fewer would copy exactly the old entries |
| TextFiles.ScanStart | src/assets/text_file.cpp:171 | the word loop starts at the beginning of the buffer with nothing listed |
| TextFiles.ScanDone | src/assets/text_file.cpp:179-181 | when the loop stops, the listed words are exactly the words of the line |
| TextFiles.PlacedKept | src/assets/text_file.cpp:211-228 | writing a NUL after the listed words does not change them |
| TextFiles.PlacedSnoc | src/assets/text_file.cpp:201-217 | listing one more word extends the listed words by it |
| TextFiles.WordPlaced | src/assets/text_file.cpp:211-228 | the NUL written at a word's end makes the C string at its start exactly that word |
| TextFiles.ScanWord | src/assets/text_file.cpp:188-230 | one word listed and ended keeps the loop invariant |
| TextFiles.HoldsPast | src/assets/text_file.cpp:211-228 | the rest of the line after the written NUL is still intact in the buffer |
| TextFiles.NulUnique | src/assets/text_file.cpp:151 | a string has only one first NUL |
| TextFiles.RoundText | src/assets/text_file.cpp:148-151 | after a round, strlen gives exactly the length of the line read so far, which is in the buffer |
| TextFiles.RoundStop | src/assets/text_file.cpp:154-155 | a round ends the line exactly when it read a newline or hit the end of the file; otherwise the same line goes on |
| TextFiles.LineComplete | src/assets/text_file.cpp:154-155 | a line that ends in a newline or at the end of the file is read completely |
| TextFiles.GrownSoFar | src/assets/text_file.cpp:157-165 | the grown buffer holds the line read so far, with room for more |
| TextFiles.ReadRoundDone | src/assets/text_file.cpp:148-155 | the state after a round is described by RoundRead |
| TextFiles.LineString | src/assets/text_file.cpp:169-171 | the C string at the start of the buffer is exactly the line that was read |
| TextFiles.TextFile.constructor | src/assets/text_file.cpp:33-43 | no file is open, no word is listed, and both arrays have their initial sizes |
| TextFiles.TextFile.Open | src/assets/text_file.cpp:54-79 | the open succeeds exactly when the file exists; the old file is closed first, which clears the word list only when one was open |
| TextFiles.TextFile.Getc | src/assets/text_file.cpp:120-122 | fgetc gives the next character and advances, or gives EOF and sets the end-of-file flag |
| TextFiles.TextFile.Throw_Line | src/assets/text_file.cpp:240-251 | the rest of the line is skipped through its newline; true exactly when a newline was read |
| TextFiles.TextFile.Seek_First | src/assets/text_file.cpp:115-138 | true exactly when a word character follows, and the file is left at it; otherwise it is at the end |
| TextFiles.TextFile.Fgets | src/assets/text_file.cpp:148 | fgets reads up to n-1 characters of the line into the buffer at the offset and ends them with a NUL, leaving the rest of the buffer; false only at the end of the file |
| TextFiles.TextFile.Clear_List | src/assets/text_file.cpp:271-279 | the listed entries are reset and the count is zero; the entries beyond are untouched |
| TextFiles.TextFile.Append_To_List | src/assets/text_file.cpp:253-269 | the word goes last and the earlier entries stay; a full list grows by the initial list size |
| TextFiles.TextFile.Strlen | src/assets/text_file.cpp:151 | the length is the position of the first NUL |
| TextFiles.TextFile.ReadRound | src/assets/text_file.cpp:148-155 | one fgets round appends to the line read so far, or reports the end of the file and changes nothing |
| TextFiles.TextFile.Grow | src/assets/text_file.cpp:157-165 | a fresh buffer, larger by the initial buffer size, holds a copy of the string read so far |
| TextFiles.TextFile.Line_To_Buffer | src/assets/text_file.cpp:140-167 | the rest of the current line, through its newline, is in the buffer as a C string; false only when nothing is left to read |
| TextFiles.TextFile.SkipBlanks | src/assets/text_file.cpp:176-177 | the scan stops at the first non-whitespace character |
| TextFiles.TextFile.FindQuoteEnd | src/assets/text_file.cpp:204-205 | the scan stops at the closing quotation mark or the end |
| TextFiles.TextFile.FindWordEnd | src/assets/text_file.cpp:220-222 | the scan stops at the first whitespace or the end |
| TextFiles.TextFile.ListWord | src/assets/text_file.cpp:188-230 | one word is listed and ended, and the loop invariant holds after it |
| TextFiles.TextFile.EndWord | src/assets/text_file.cpp:207-229 | the word's terminator is overwritten with a NUL and scanning continues after it; at the end of the line nothing is written |
| TextFiles.TextFile.ListNextWord | src/assets/text_file.cpp:173-231 | one round either ends with the listed words equal to the line's words, or lists one more word |
| TextFiles.TextFile.Buffer_To_List | src/assets/text_file.cpp:169-238 | the listed words are exactly the words of the C string in the buffer, and the result says whether there is any |
| TextFiles.TextFile.Read_Line | src/assets/text_file.cpp:91-113 | with no open file, false and nothing changes; otherwise true exactly when the file has another line with words, whose words are then listed and the file moves to the line after |
| Conf.Lookup | src/assets/conf.cpp:56 | the lookup stops at the first entry that is the terminator or has the word's name; every entry before it is neither |
| Conf.LookupFrom | src/assets/conf.cpp:56 | the same search from entry i |
| Conf.Store | src/assets/conf.cpp:76-152 | only the six known types can change a slot; a boolean takes true for true/on/yes/1 and false for false/off/no/0 (case-insensitive words) and otherwise keeps its value; a string is copied exactly when it is shorter than the string size |
| Conf.UncoveredKept | src/assets/conf.cpp:53-155 | a slot that no line names with the right number of values keeps its value, whatever the lines say |
| Conf.Load_Conf | src/assets/conf.cpp:35-158 | a missing file fails and changes no slot; otherwise every slot ends as the lines, applied in order, leave it |
| Conf.Conf_Line | src/assets/conf.cpp:55-153 | one line changes exactly the slots of the parameter it names, and only when it has one word per value |
| Roads.Absorption | src/assets/road.cpp:100-102 | the identity `(i+1)·C(n,i+1) = (n-i)·C(n,i)` that makes each coefficient update an exact division |
| Roads.RecurrenceIsChoose | src/assets/road.cpp:77-102 | the coefficient `k` reached after `i` updates is the binomial coefficient C(n, i), with unbounded integers |
| Roads.Coefficients | src/assets/road.cpp:77-107 | the loop produces one weight per control point, and the `i`-th weight is C(n, i) |
| Roads.Wrap32 | src/assets/road.cpp:101 | a 32-bit `int` result stays within INT_MIN..INT_MAX and equals the exact value when that fits |
| Roads.TruncDiv | src/assets/road.cpp:102 | C division truncates toward zero: a non-negative dividend lies in [r·b, r·b+b), a negative one in (r·b-b, r·b], and r has the dividend's sign |
| Roads.BinomialOverflow | src/assets/road.cpp:97-102 | with 31 control points the product at step 14 exceeds INT_MAX and the 32-bit update gives a negative weight where C(30,15) is due |
| Roads.Degree | src/assets/road.cpp:40-42 | the point count taken from the word count never reads past the last word: `3 + 2n <= words-1` |
| Roads.SectionWords | src/assets/road.cpp:452 | a line accepted as `section` (at least 4 words, an even count) gives at least one point and uses every word after the name |
| Roads.Bezier.constructor | src/assets/road.cpp:34-55 | the curve takes the name in word 1 and point `i` from words `2+2i` and `3+2i`, and becomes the new head of the section list |
| Roads.FirstNamed | src/assets/road.cpp:63-65 | the index of the first curve with the name, or the list length when none has it |
| Roads.SectionList.constructor | src/assets/road.cpp:190 | the section list starts empty |
| Roads.SectionList.Find | src/assets/road.cpp:61-70 | null exactly when no curve has the name; otherwise the first curve from the head that has it |
| Roads.SectionList.RemoveAll | src/assets/road.cpp:165-174 | every curve is unlinked and the list is empty |
| Roads.Setting | src/assets/road.cpp:630-660 | a resolution or stiffness component changes only on its own line with a value above 0, and always does then; `depth` takes its word; the `cubic`/`linear` and `capping`/`nocapping` flags change only on their own lines; valid settings stay valid |
| Roads.RowVertices | src/assets/road.cpp:237-268 | one GenVertices call yields `xres+1` vertices, column `x` being the vertex for (block, row, side, x) |
| Roads.Gen_Vertices | src/assets/road.cpp:207-269 | the model's vertex list grows by exactly that row |
| Roads.BlockVertices | src/assets/road.cpp:563-584 | the rows of a block number `Rows(dpt)·(xres+1)` per step |
| Roads.BlockVertex | src/assets/road.cpp:563-584 | the vertex for step `i`, side and column `x` sits at the step's start, plus `xres+1` for the bottom side, plus `x` |
| Roads.BlockPlaced | src/assets/road.cpp:543-584 | appended after any prefix, each step `i` of a block sits at `start + StepStart(0, i)` and the list ends where step `yres+1` would begin |
| Roads.Surfaces | src/assets/road.cpp:587-604 | a block has one surface without depth and four or five with depth |
| Roads.EndCapWithin | src/assets/road.cpp:688-689 | the far-end cap is a valid grid whose every corner lies inside the vertex list |
| Roads.DepthSurfacesWithin | src/assets/road.cpp:589-601 | the top, bottom, side and cap grids of a block with depth index only vertices that exist |
| Roads.FlatSurfaceWithin | src/assets/road.cpp:603-604 | the single top grid of a flat block indexes only vertices that exist |
| Roads.NormalCount | src/assets/road.cpp:281-338 | a block's surfaces add a non-negative number of normals, `(xres+1)(yres+1)` each |
| Roads.BlockTriangles | src/assets/road.cpp:342-369 | the triangles of the surfaces, one list per surface in order, as many as TriangleCount says |
| Roads.SurfaceTriangleCount | src/assets/road.cpp:587-604 | a flat block adds `2·xres·yres` triangles; with depth `4·xres·yres + 4·yres`, plus `2·xres` for the start cap |
| Roads.BlockSnoc | src/assets/road.cpp:275-370 | one more surface appends its own triangles, `(xres+1)(yres+1)` normals and `2·xres·yres` triangles to the totals |
| Roads.Add_Surface | src/assets/road.cpp:590-604 | generating one surface extends what the block has added by that surface's normals and triangles, and keeps every triangle on existing vertices |
| Roads.Block_Vertices | src/assets/road.cpp:543-584 | the block's vertex rows are appended; `start` moves back one step when the previous step is reused, and each step lands at its computed place |
| Roads.Block_Surfaces | src/assets/road.cpp:586-604 | all of the block's surfaces are appended on the material, numbered on from the old normals |
| Roads.Depth_Surfaces | src/assets/road.cpp:587-601 | the top, bottom, two sides and optional cap are appended, in that order |
| Roads.Side_Surfaces | src/assets/road.cpp:589-597 | the top, bottom and two side surfaces of a block with depth are appended, in that order, on existing vertices |
| Roads.Add_Block | src/assets/road.cpp:543-604 | a block appends its vertex rows and its surfaces, and every triangle still names existing vertices |
| RoadGrid.Span | src/assets/road.cpp:290-321 | the two vertices a normal's difference uses: the neighbours on both sides inside the grid, the first two at the low edge and the last two at the high edge |
| RoadGrid.Grid_Normals | src/assets/road.cpp:280-338 | one normal per grid vertex, row by row, normal `k` being the cross product of the two differences around vertex `(k mod (xres+1), k div (xres+1))` |
| RoadGrid.Grid_Triangles | src/assets/road.cpp:340-369 | two triangles per grid square, squares row by row, the first with corners (x,y),(x+1,y),(x,y+1) and the second (x+1,y),(x+1,y+1),(x,y+1) |
| RoadGrid.SquareAt | src/assets/road.cpp:342-366 | square `(x, y)` owns triangles `2(xres·y+x)` and the one after it |
| RoadGrid.CornerNormal | src/assets/road.cpp:346-362 | a triangle corner names a vertex inside the list and the normal computed for that same grid vertex |
| RoadGrid.TrianglesOnGrid | src/assets/road.cpp:342-369 | every triangle of a grid whose corners lie in the vertex list names only vertices in the list |
| RoadGrid.Gen_Normals_And_Indices | src/assets/road.cpp:275-370 | the normals list grows by the grid's normals, the material's triangles by exactly the grid's triangles numbered on from the old normals, no other material changes, the count grows by `2·xres·yres`, and triangles stay on existing vertices |
| RoadGrid.AppendedIn | src/assets/road.cpp:355-366 | appending triangles that name existing vertices keeps all of a model's triangles on existing vertices |
| RoadFile.TotalAppend | src/assets/road.cpp:493 | appending materials adds their triangles to the total |
| RoadFile.TotalGrow | src/assets/road.cpp:590-604 | appending triangles on one material grows the total by exactly their number |
| RoadFile.MadeConsistent | src/assets/road.cpp:466-608 | after a block the loop's locals still agree with the model: the last step's rows exist, a material is set, and `triangle_count` counts every triangle the file added |
| RoadFile.Add_Line | src/assets/road.cpp:454-609 | without a selected section both ends are reset and the model is unchanged; a first end only moves the ends on; a second end makes a block (the default material as material 0 when none was chosen, step 0 reused when xres and depth match, the start capped for the first block with depth when capping is on) |
| RoadFile.Make_Block | src/assets/road.cpp:487-608 | the block's vertices, normals and triangles and the reader's new ends, material and last xres/depth are exactly those BlockMade describes |
| RoadFile.Section_Line | src/assets/road.cpp:452-453 | a `section` line puts one new curve with the line's name at the head of the section list, the rest unchanged |
| RoadFile.Select_Line | src/assets/road.cpp:610-617 | a `select` line picks the first curve with the name, and keeps the selection when there is none |
| RoadFile.Load_Material | src/assets/road.cpp:670-674 | a `material_file` line loads the file's materials as MaterialsLoaded says; they carry no triangles and the ambient fix keeps every material's triangles, so the reader stays consistent and the count exact |
| RoadFile.TotalSameTriangles | src/assets/road.cpp:670-674 | the triangle total depends only on each material's triangles, so a recolouring keeps it |
| RoadFile.Reader_Line | src/assets/road.cpp:452-683 | `section`, `select`, `material` (an unknown name keeps the material) and the setting lines change only what their branch names; the other lines change nothing |
| RoadFile.Road_Line | src/assets/road.cpp:450-685 | every line keeps the reader consistent with the model and never removes a vertex, and takes exactly the RoadStepped step its first word selects: `add` resets, moves or makes a block; `material_file` loads the file's materials as MaterialsLoaded says; `section` heads the list with a curve of that name; `select` and `material` pick the first of that name or keep the old one; any other line is a setting |
| RoadFile.TracedSnoc | src/assets/road.cpp:450-685 | a trace of the first n lines followed by one RoadStepped step over line n is a trace of n+1 lines from the same start |
| RoadFile.RoadSteppedGrows | src/assets/road.cpp:450-685 | no line removes a vertex, and a line adds a section exactly when it is a `section` line |
| RoadFile.TraceGrows | src/assets/road.cpp:450-685 | along the lines read, the vertex list only grows and the section list grows by one per `section` line |
| RoadFile.End_Cap | src/assets/road.cpp:687-689 | after the last line the far end is capped over the last step's two rows exactly when both ends are active, the new end has depth and capping is on; the cap adds `2·last_xres` triangles on the current material and their normals after the old ones, and without a cap the count and lists stay (Capped) |
| RoadFile.Load_Road | src/assets/road.cpp:418-711 | a file that cannot be opened gives false and changes nothing; otherwise the lines are a RoadStepped trace from the start locals and the model as it was, the vertices are the last snapshot's, the far end is then Capped, the section list ends empty, the result is true exactly when the model has a material and a vertex, one (0,0) texture coordinate is added then, the count is the number of triangles added, and every triangle names an existing vertex |
| Profiles.EnumIncrement | src/assets/profile.cpp:69-78 | the successor stays in `begin..end`, wraps to `begin` exactly at `end`, and is `v+1` everywhere else |
| Profiles.KeyFrom | src/assets/profile.cpp:85-91 | the scan from key `k` returns the first key below SDLK_LAST whose name matches, or SDLK_UNKNOWN when none does |
| Profiles.KeyOf | src/assets/profile.cpp:81-92 | get_key returns a key in range: the first whose name matches, and SDLK_UNKNOWN whenever no key's name matches |
| Profiles.Get_Key | src/assets/profile.cpp:81-92 | the loop returns exactly the key KeyOf names |
| Profiles.Bind | src/assets/profile.cpp:148-183 | each line shape sets only its own fields (key; axis with its range; button; hat and position); an unknown hat direction sets the hat to 255 and keeps the position; a malformed line changes nothing |
| Profiles.UnknownActionsIgnored | src/assets/profile.cpp:141-145 | lines that name none of the nine actions leave every binding as it was |
| Profiles.CameraChecked | src/assets/profile.cpp:121-125 | the default camera ends between 1 and 4: kept when it was, 3 otherwise |
| Profiles.Bind_Line | src/assets/profile.cpp:146-183 | the branch chain computes exactly Bind |
| Profiles.Profile.constructor | src/assets/profile.cpp:100-107 | a new profile holds copies of the defaults and is unlinked |
| Profiles.Profile.Load_Keys | src/assets/profile.cpp:135-187 | after the key list each binding is its default with every line naming its action applied in order |
| Profiles.Profile.Key_Line | src/assets/profile.cpp:140-185 | one line changes exactly the bindings of the actions it names, as Bind says |
| Profiles.ProfileList.constructor | src/assets/profile.cpp:28 | the profile list starts empty |
| Profiles.ProfileList.Push | src/assets/profile.cpp:100-105 | the profile becomes the head, with the old list behind it still doubly linked |
| Profiles.ProfileList.Splice | src/assets/profile.cpp:34-41 | the neighbours of the removed profile point at each other, the head moves on when it was the head, and no other link changes |
| Profiles.ProfileList.Profile_Remove | src/assets/profile.cpp:30-45 | the list is the old list without the target, still doubly linked |
| Profiles.ProfileList.Profile_Remove_All | src/assets/profile.cpp:47-51 | the list ends empty |
| Profiles.ProfileList.Profile_Load | src/assets/profile.cpp:95-192 | the new profile heads a still-linked list; every conf slot is the default with the conf file's lines applied (the defaults when it is missing), the camera clamped to 1..4, and every binding the default with the key list applied when it exists |
| Profiles.ProfileList.Profile_Link_AsWritten | src/assets/profile.cpp:100-107 | linking first and then copying the defaults over the whole struct leaves the new profile with null links: the old head still points back at it, and the list is no longer linked |
| RacetimeData.Data.constructor | src/shared/racetime_data.hpp:59 | a new node has its name and dynamic type and no successor |
| RacetimeData.FirstMatch | src/shared/racetime_data.hpp:45-53 | the position of the first node with both the name and the type, every earlier node failing one of them |
| RacetimeData.Registry.Find | src/shared/racetime_data.hpp:39-56 | Find returns the first node in list order that has the name and is of the requested type, and null exactly when none is |
| RacetimeData.Found | src/shared/racetime_data.hpp:45-55 | null exactly when no node matches both; otherwise a matching node of the list |

## Left out

- Threads and pacing: the simulation thread, its SDL mutex and condition variable, wall-clock pacing, and Lua start/stop (`simulation.cpp`). These are concurrency and I/O; the order of the calls into ODE, Car and Wheel per micro-step is not modelled.
- ODE calls: `dCollide`, `dSpaceCollide2`, joint creation and attachment, `dWorldQuickStep`, body getters and setters, trimesh data building. The model takes contacts, velocities and reported forces as inputs. A created contact joint is recorded as the surface parameters it would get.
- `Wheel::Add_Contact`: the wheel friction model is not shown. Only the choice of which geom is the wheel is modelled.
- Float geometry. Dafny reals have no square root, sine or cosine, so:
  - vector lengths (`dLENGTH`, `v_length`) and the unit normal of a triangle are the parameters `norm` and `unit`;
  - `Axis_Linear_Drag` and `Axis_Angular_Drag` are function parameters of the drag step;
  - the road geometry (Bézier evaluation, `GetDir`, `Rotation`, `Position` and the positions `GenVertices` computes) is the parameter `shape`. The normal estimate of `GenNormalsAndIndices` is kept as a cross product of exact differences.
- IEEE signed infinities and NaN: spring and damping are non-negative, finite or infinite. Single-precision rounding of `float` is not modelled; all reals are exact.
- Number converters: `atof`, `atoi`, `strtof`, `strtod`, `strtol` and the two `sscanf` patterns are function parameters. The `strto*` converters report whether they consumed any character.
- `Log_Add` and `printlog` only write to the log and are dropped.
- File opening and closing: `fopen`/`fclose` in Text_File, the `Directories` lookups of profiles, and `Relative_Path`. A file is its contents (or lines of words), or None when it cannot be opened.
- `SDL_GetKeyName` is the parameter `keyName`.
- Files containing a NUL character: a NUL would end the C string early, and Text_File requires file contents without NUL.
- Text_File's Seek_First stores `fgetc` in a `char` before comparing it with EOF, so a 0xFF byte reads as the end of the file where `char` is signed. The model reads characters, not bytes, and does not model this.
- Load_Road reads `file.words[1]` on a `depth` line without checking the word count. A one-word `depth` line reads past the words as written; the model keeps the depth.
- The road loader holds the current material by its address in the material vector, and a later `material_file` line can reallocate that vector. The model keeps an index instead, so that stale address is not modelled.
- Conf slots: the memory block Load_Conf writes is an array of typed slots, where `offset` counts slots and not bytes. Byte layout, alignment and type punning of the caller's struct are not modelled.
- Lua: the `Script` handles are opaque values, and `src/loaders/object.cpp` (chunk loading and execution) is not modelled.
- `Module::Load` and `Module::Create` are hard-coded scene construction made of ODE calls and constants, and are not modelled.
- The event queue implementation (`event_buffers.cpp`) is not part of this model. Only its `Add_*` and `Remove_All` interface is modelled; whether entries are merged, and how the queue is flushed, is left open.
- Header constants not among the modelled files are parameters or stated values:
  - Text_File's initial buffer and list sizes (`text_file.hpp`);
  - `Conf_String_Size`;
  - `Material_Default` (the parameter `fallback`);
  - `profile_defaults`;
  - `INDEX_ERROR`, taken as the largest 32-bit unsigned value.
- `model.cpp` is not part of this model. `Find_Material` is modelled from its use (first material with the name, or INDEX_ERROR), and `Load_Material` is taken to load an MTL file: the parameter `library` gives the materials the named file defines as Load_MTL parses them (none when it cannot be opened), and MaterialsLoaded applies Load_MTL's append and ambient fix. For the road loader these materials have no triangles.
- Declaration-only headers (`render_list.hpp`, `camera.hpp`, `script.hpp`, `track.hpp`, `internal.hpp`) are used only for field types and constants.
- Several methods are split into helper methods along the source's loop bodies (for example `ReadRound`, `ListWord`, `Make_Block`). Each helper is one iteration or one branch of the source's function, and has no function of its own in the source.
- CollisionFeedback.Feedback.Apply: the buffer effects are stated only when neither geom forwards its damage to a Body. With a forwarding geom, the force is stated but the Body's buffer change is not.
- CollisionFeedback.FeedbackList.Physics_Step: the Drain fold over the buffers and the queue is stated only when no entry names a geom that forwards its damage to a Body. With forwarding geoms, only the order, the forces and the emptied list are stated.
- ObjLoader.Load_OBJ and RoadFile.Load_Road: the closing calls to `Normalize_Normals` (obj.cpp:233, road.cpp:702) and, for OBJ files, `Generate_Missing_Normals` (obj.cpp:234) are not modelled. Both are defined in `model.cpp`, which is not part of this model, and both need square roots. The normals the two loaders are stated to leave are therefore the ones read from the file or estimated from the road, before they are scaled to unit length, and triangles whose normal index is INDEX_ERROR keep it.
- Objects.Object.ReleaseTop: models what deleting the top component does to its Object (events purged, activity lowered, chain popped). The rest of `Geom::~Geom` or `Body::~Body` (leaving the Geom or Body list, freeing the wheel and per-triangle arrays) is not part of this member: the Geom and Body modules build on the Object module, so the Object cannot reach their lists. Geoms.Geom.Destroy and Bodies.Body.Destroy state those unlinks on their own.
- Objects.Object.ReleaseAll: for the same reason, it does not state that the released components have left the Geom and Body lists.
- Objects.Object.Destroy: for the same reason, it does not state that the object's Geoms and Bodies have left their lists; it states the list, activity and event effects only.
- Objects.ObjectList.DestroyAll: states that the list ends empty and every object loses its components, but not the exact events queued and purged along the way.
- ObjLoader.Load_MTL: requires the material count to stay below INDEX_ERROR, so the `unsigned int` material index never wraps.
- ModelMeshes.Count: counts triangles with unbounded integers. In the source, each material's count (a `size_t`) is narrowed to `unsigned int`, and the running total `tris` wraps at 2^32 (model_mesh.cpp:166-173). The `!tris` and `tris*3` checks then see the wrapped total. The Findings row covers only the wrap of `tris*3`.
- `mergecallback` (model_mesh.cpp:34-38) is an ODE callback that keeps the first of two merged triangle indices. ODE's contact merging is not modelled, so the callback is left out too.
- Roads.Coefficients: computes the coefficients with unbounded integers. The 32-bit overflow of the source is shown separately by Roads.BinomialOverflow.

## Findings

| source | as written | input that shows it | evidently intended | confidence | as-written member | corrected member |
|---|---|---|---|---|---|---|
| src/assets/model_mesh.cpp:187 | `tris*3` is computed on `unsigned int`, so it wraps modulo 2^32 before the comparison with INT_MAX | `tris = 0x55555556`: `tris*3` wraps to 2, the check passes, and the index array is allocated with 2 entries | reject the mesh when `3*tris > INT_MAX` | not executed | ModelMeshes.TooBigAsWrittenMisses | ModelMeshes.Create_Mesh |
| src/assets/profile.cpp:107 | `*prof = profile_defaults` copies the whole struct after the profile was linked at the head, so `next` and `prev` become the defaults' null links | loading a profile while another is loaded: the old head still points back at the new profile, but the new head's `next` is null and the earlier profiles drop out of the list | link the profile after copying the defaults, so the list stays doubly linked | not executed | Profiles.ProfileList.Profile_Link_AsWritten | Profiles.ProfileList.Profile_Load |
| src/assets/road.cpp:101 | `k*=(n-i)` on a 32-bit `int` overflows before the division | a section with 31 control points (`n = 30`): at `i = 14`, `C(30,14)*16` exceeds INT_MAX and the weight becomes -131213633 instead of C(30,15) | the binomial coefficient C(n, i) for every term | not executed | Roads.BinomialOverflow | Roads.Coefficients |
| src/assets/obj.cpp:97-99 | only a `sscanf` count of 0 stops the face; a count of EOF (-1) goes on with the previous word's `vi` | the face `f 1 2 3 ""`: the empty quoted word scans as EOF and yields a second triangle (0, 2, 1) | stop the face at any word that converts no index | not executed | ObjLoader.EmptyWordAsWritten | ObjLoader.Corners |
| src/assets/text_file.cpp:154 | after `fgets` stops at a full buffer, only `feof` or a trailing newline ends the round | a last line with no newline whose length is exactly the buffer size minus one: `fgets` fills the buffer without reaching end of file, the next `fgets` returns NULL, and the line is dropped | keep the text already read when the next `fgets` finds nothing | not executed | TextFiles.ExactFillDropped | TextFiles.TextFile.Line_To_Buffer |
| src/assets/text_file.cpp:264 | the `memcpy` copies `word_count` entries from the old array, which holds `word_count-1` | any line with one word more than the list holds: the copy reads one entry past the old array | copy the `word_count-1` valid entries | not executed | TextFiles.GrowCopyOverreads | TextFiles.TextFile.Append_To_List |
