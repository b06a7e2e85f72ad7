# ViroCore SDK core, modelled in Dafny

ViroCore is an AR/VR rendering SDK: a C++ renderer (ViroRenderer) with
OpenGL back ends, platform layers for Android (ARCore, Oculus Mobile,
Cardboard) and iOS (the pose-detection vision engine), JNI bridges and a
Java API on top. This project models the parts of that code base whose
behaviour is logic rather than GPU or platform calls, one Dafny module
per source file:

- binary and text plumbing: the growable byte buffer (`ByteBuffer`), the
  OpenType `cmap` coverage reader (`CharmapCoverage`) and the text line
  breaker and glyph layout (`TextFormatter`);
- renderer state: the OpenGL driver's state cache and purge schedule
  (`DriverOpenGL`), shader programs (`ShaderProgram`), the shader factory
  and its capability keys (`ShaderFactory`), the material substrate and its
  program pool (`MaterialSubstrate`), the geometry substrate
  (`GeometrySubstrateOpenGL`), post-process effects
  (`PostProcessEffects`), the Cardboard distortion renderer
  (`DistortionRenderer`), blend shapes (`Morpher`), the particle emitter's
  pool and schedule (`ParticleEmitter`), animated GIF textures
  (`AnimatedTexture`) and the glTF loader's tables and mesh assembly
  (`GltfLoader`);
- tracking: the body tracker controller (`BodyTrackerController`), the
  vision engine's crop box and frame rate (`VisionEngine`) and the ARCore
  session's anchors and image rotation (`ARSessionARCore`);
- the Oculus application thread's message queue, back button and VR-mode
  transitions (`SceneRendererOVR`);
- the metrics client's validation and retry bookkeeping (`KeenClient`);
- the JNI bridges for materials, textures and particle emitters
  (`MaterialJNI`, `TextureJNI`, `ParticleEmitterJNI`) and the Java classes
  Node, ARScene, Texture, ParticleEmitter, PhysicsBody and
  ViroMediaRecorder (`SceneNode`, `ARSceneJava`, `TextureJava`,
  `ParticleEmitterJava`, `PhysicsBodyJava`, `MediaRecorderJava`).

Objects whose fields the source updates in place are classes with
`modifies` frames; decoders, parsers and decision tables are functions;
loops stay loops with their invariants. Each operation is tied to an
independent statement of what it computes (a specification function, a
round trip, a preserved invariant). Shared helpers live in `Wrappers`
(Option and Result), `Arithmetic`, `Decimal`, `Strings` (ASCII
case-insensitive comparison) and `BodyJoints` (the joint enumeration).

## Model

| member | source | states |
|---|---|---|
| AnimatedTexture.Pack | ViroRenderer/VROAnimatedTextureOpenGL.cpp:261-262 | a pixel packed as alpha, blue, green, red bytes from high to low fits in 32 bits |
| AnimatedTexture.PackRoundTrip | ViroRenderer/VROAnimatedTextureOpenGL.cpp:261-262 | unpacking a packed pixel recovers red from the low byte, then green, blue and alpha |
| AnimatedTexture.PaletteOverrunAsWritten | ViroRenderer/VROAnimatedTextureOpenGL.cpp:256 | with a four-colour table, index 4 passes the written guard although the entries are 0 to 3 |
| AnimatedTexture.BaseColorChannels | ViroRenderer/VROAnimatedTextureOpenGL.cpp:256-262 | corrected (see Findings): a table colour is fully transparent exactly at the transparent index and opaque otherwise, with the entry's red, green and blue |
| AnimatedTexture.Pixel | ViroRenderer/VROAnimatedTextureOpenGL.cpp:251-296 | an opaque pixel takes its table colour and updates the previous-frame cache; a transparent one takes the background test with disposal 2 and the cached pixel otherwise |
| AnimatedTexture.RowPixels | ViroRenderer/VROAnimatedTextureOpenGL.cpp:252-296 | a row contributes one pixel per column |
| AnimatedTexture.FrameRowsSize | ViroRenderer/VROAnimatedTextureOpenGL.cpp:249-298 | a frame holds width times height pixels |
| AnimatedTexture.DecodeImage | ViroRenderer/VROAnimatedTextureOpenGL.cpp:249-298 | the pixel loops compute exactly the frame's rows top to bottom, left to right, threading the cache |
| AnimatedTexture.PixelStep | ViroRenderer/VROAnimatedTextureOpenGL.cpp:251-296 | the loop body computes exactly one Pixel |
| AnimatedTexture.Delay | ViroRenderer/VROAnimatedTextureOpenGL.cpp:226-229 | a frame's delay is the control block's hundredths times ten, 0 read as 100 ms, so at least 10 ms |
| AnimatedTexture.DecodeStepEffect | ViroRenderer/VROAnimatedTextureOpenGL.cpp:217-309 | one step succeeds exactly when the image has a control block and a colour table, and then appends one frame stamped with the running total |
| AnimatedTexture.FramesSucceed | ViroRenderer/VROAnimatedTextureOpenGL.cpp:217-309 | decoding succeeds exactly when every image is decodable |
| AnimatedTexture.StampStep | ViroRenderer/VROAnimatedTextureOpenGL.cpp:226-232 | decoding one more image keeps every frame stamped with the sum of the delays before it |
| AnimatedTexture.FramesTimeline | ViroRenderer/VROAnimatedTextureOpenGL.cpp:226-232 | every decoded frame's timestamp is the sum of all earlier delays |
| AnimatedTexture.DelaySumIncreases | ViroRenderer/VROAnimatedTextureOpenGL.cpp:226-232 | the running totals start at 0 and strictly increase |
| AnimatedTexture.TimelineIncreasing | ViroRenderer/VROAnimatedTextureOpenGL.cpp:226-232 | a successful decoding has one timestamp per image, starting at 0 and strictly increasing |
| AnimatedTexture.DecodeFrames | ViroRenderer/VROAnimatedTextureOpenGL.cpp:217-309 | the frame loop computes exactly Frames over all images |
| AnimatedTexture.DecodeNext | ViroRenderer/VROAnimatedTextureOpenGL.cpp:218-308 | one pass of the frame loop computes exactly one DecodeStep |
| AnimatedTexture.FramesStop | ViroRenderer/VROAnimatedTextureOpenGL.cpp:220-244 | once decoding has failed, later images change nothing |
| AnimatedTexture.FirstFrameSkippedAsWritten | ViroRenderer/VROAnimatedTextureOpenGL.cpp:103-107 | on timestamps [0, 100, 200] the strict test shows frame 2 at times 0 and 100; the intended search shows frames 0 and 1 |
| AnimatedTexture.SelectFrame | ViroRenderer/VROAnimatedTextureOpenGL.cpp:101-112 | corrected (see Findings): the frame chosen lies between the starting index and the last frame |
| AnimatedTexture.SelectFrameCovers | ViroRenderer/VROAnimatedTextureOpenGL.cpp:101-112 | corrected (see Findings): on increasing timestamps the chosen frame's interval holds t, or it is the last frame |
| AnimatedTexture.Timestamps | ViroRenderer/VROAnimatedTextureOpenGL.cpp:231 | the timestamps of the decoded frames, one per frame |
| AnimatedTexture.AnimatedTextureOpenGL.constructor | ViroRenderer/VROAnimatedTextureOpenGL.cpp:41-44 | a new texture has no frames, duration 0 and no uploads |
| AnimatedTexture.AnimatedTextureOpenGL.Play | ViroRenderer/VROAnimatedTextureOpenGL.cpp:58-65 | a paused animation with frames resumes so that its clock continues from the paused time; otherwise nothing changes |
| AnimatedTexture.AnimatedTextureOpenGL.Pause | ViroRenderer/VROAnimatedTextureOpenGL.cpp:67-73 | a running animation with frames stops and remembers how long it had run; otherwise nothing changes |
| AnimatedTexture.AnimatedTextureOpenGL.PauseThenPlay | ViroRenderer/VROAnimatedTextureOpenGL.cpp:58-73 | pausing then resuming later leaves the animation time where it was when paused |
| AnimatedTexture.AnimatedTextureOpenGL.SetLoop | ViroRenderer/VROAnimatedTextureOpenGL.cpp:75-77 | the loop flag takes the value |
| AnimatedTexture.AnimatedTextureOpenGL.AnimateTexture | ViroRenderer/VROAnimatedTextureOpenGL.cpp:83-123 | corrected (uses AnimatedTexture.SelectFrame, see Findings): past the end a looping animation restarts and a non-looping one stops; otherwise the frame whose interval holds the time is uploaded when it differs from the current one |
| AnimatedTexture.AnimatedTextureOpenGL.Init | ViroRenderer/VROAnimatedTextureOpenGL.cpp:320-350 | the clock restarts at 0 on frame 0, looping and playing, and frame 0 is uploaded |
| AnimatedTexture.AnimatedTextureOpenGL.ParseGIFFile | ViroRenderer/VROAnimatedTextureOpenGL.cpp:192-318 | an unreadable or interlaced file fails and leaves the texture unchanged; otherwise the screen size is taken, the frames decoded before any failure are kept and the total duration is recorded only when every frame decodes |
| AnimatedTexture.InPaletteAsWritten | ViroRenderer/VROAnimatedTextureOpenGL.cpp:256 | as written: every index inside the table passes, and so does the index equal to the colour count, one past the last entry |
| AnimatedTexture.BaseColor | ViroRenderer/VROAnimatedTextureOpenGL.cpp:253-265 | corrected: the pixel is a 32-bit colour, and 0 for an index outside the table |
| AnimatedTexture.SelectFrameAsWritten | ViroRenderer/VROAnimatedTextureOpenGL.cpp:103-107 | as written: the search ends on a frame index at or after where it starts and inside the frame list |
| ARSceneJava.GetTrackingState | android/app/src/main/java/com/viro/core/ARScene.java:788-799 | ids 1, 2 and 3 decode to UNAVAILABLE, LIMITED and NORMAL, in both directions; any other id is UNAVAILABLE |
| ARSceneJava.TrackingStateIdRoundTrip | android/app/src/main/java/com/viro/core/ARScene.java:196-222 | decoding a state's id gives the state back, and a valid id survives decode then getId |
| ARSceneJava.GetTrackingStateReason | android/app/src/main/java/com/viro/core/ARScene.java:804-815 | ids 1, 2 and 3 decode to NONE, EXCESSIVE_MOTION and INSUFFICIENT_FEATURES; any other id is NONE |
| ARSceneJava.TrackingStateReasonIdRoundTrip | android/app/src/main/java/com/viro/core/ARScene.java:225-251 | decoding a reason's id gives the reason back, and a valid id survives decode then getId |
| ARSceneJava.EnumSetOrder | android/app/src/main/java/com/viro/core/ARScene.java:500-508 | the set's members in declaration order, each once, and nothing else |
| ARSceneJava.ARScene.constructor | android/app/src/main/java/com/viro/core/ARScene.java:272-277 | a new scene has no listener, no pending cloud requests, no anchored nodes and nothing delivered |
| ARSceneJava.ARScene.SetListener | android/app/src/main/java/com/viro/core/ARScene.java:318-320 | the listener is installed; nothing else changes |
| ARSceneJava.ARScene.OnTrackingUpdated | android/app/src/main/java/com/viro/core/ARScene.java:772-783 | with a listener, the first NORMAL update delivers tracking-initialised once, before the update itself; without one nothing is delivered |
| ARSceneJava.ARScene.HostCloudAnchor | android/app/src/main/java/com/viro/core/ARScene.java:640-648 | the callback is stored under the anchor id; a request is sent to native code only when none is pending for that anchor |
| ARSceneJava.ARScene.ResolveCloudAnchor | android/app/src/main/java/com/viro/core/ARScene.java:700-708 | the same de-duplication, keyed by cloud anchor id |
| ARSceneJava.ARScene.OnHostSuccess | android/app/src/main/java/com/viro/core/ARScene.java:651-663 | the stored callback, if any, receives the cloud anchor and the node; the pending request stays |
| ARSceneJava.ARScene.OnHostFailure | android/app/src/main/java/com/viro/core/ARScene.java:666-674 | the stored callback, if any, receives the error |
| ARSceneJava.ARScene.OnResolveSuccess | android/app/src/main/java/com/viro/core/ARScene.java:711-728 | an error (the thrown IllegalStateException) exactly when the resolved anchor's cloud id differs from the requested one; otherwise the stored callback, if any, receives the anchor and node |
| ARSceneJava.ARScene.OnResolveFailure | android/app/src/main/java/com/viro/core/ARScene.java:731-739 | the stored callback, if any, receives the error |
| ARSceneJava.ARScene.OnAnchorFound | android/app/src/main/java/com/viro/core/ARScene.java:829-839 | the new anchored node is remembered and, with a listener, reported with the anchor |
| ARSceneJava.ARScene.OnAnchorRemoved | android/app/src/main/java/com/viro/core/ARScene.java:856-866 | the node is forgotten; the listener hears of it with the node when the scene held it, without a node otherwise |
| ARSceneJava.ARScene.SetAnchorDetectionTypes | android/app/src/main/java/com/viro/core/ARScene.java:500-508 | native code receives an array of the set's size holding each type's string value, in declaration order |
| ARSessionARCore.PlaneFindingFor | android/app/src/main/cpp/arcore/VROARSessionARCore.cpp:137-165 | the mode chosen finds horizontal planes exactly when they are requested, and vertical planes exactly when they are requested |
| ARSessionARCore.PlaneFindingModeDetermined | android/app/src/main/cpp/arcore/VROARSessionARCore.cpp:137-165 | a plane-finding mode is fixed by which orientations it finds, so the two properties above determine the mode |
| ARSessionARCore.LeftSource | android/app/src/main/cpp/arcore/VROARSessionARCore.cpp:360-381 | the input offset the clockwise turn copies to each output offset lies inside the image |
| ARSessionARCore.RightSource | android/app/src/main/cpp/arcore/VROARSessionARCore.cpp:381-400 | the input offset the counter-clockwise turn copies to each output offset lies inside the image |
| ARSessionARCore.RotatedLeft | android/app/src/main/cpp/arcore/VROARSessionARCore.cpp:360-381 | a clockwise quarter turn keeps the pixel count |
| ARSessionARCore.RotatedRight | android/app/src/main/cpp/arcore/VROARSessionARCore.cpp:381-400 | a counter-clockwise quarter turn keeps the pixel count |
| ARSessionARCore.RotatedLeftPixel | android/app/src/main/cpp/arcore/VROARSessionARCore.cpp:360-381 | the clockwise turn puts input row height-1-j, column i at output row i, column j |
| ARSessionARCore.RotatedRightPixel | android/app/src/main/cpp/arcore/VROARSessionARCore.cpp:381-400 | the counter-clockwise turn puts input row j, column width-1-i at output row i, column j |
| ARSessionARCore.RightUndoesLeft | android/app/src/main/cpp/arcore/VROARSessionARCore.cpp:360-400 | turning counter-clockwise undoes turning clockwise |
| ARSessionARCore.LeftUndoesRight | android/app/src/main/cpp/arcore/VROARSessionARCore.cpp:360-400 | turning clockwise undoes turning counter-clockwise |
| ARSessionARCore.LeftTwiceIsDown | android/app/src/main/cpp/arcore/VROARSessionARCore.cpp:348-381 | two clockwise quarter turns equal the Down case, which reverses the pixels |
| ARSessionARCore.ReverseImage | android/app/src/main/cpp/arcore/VROARSessionARCore.cpp:348-360 | the Down loop produces a fresh array holding the pixels in reverse order |
| ARSessionARCore.RotateLeft | android/app/src/main/cpp/arcore/VROARSessionARCore.cpp:360-381 | the Left loop produces a fresh array holding exactly the clockwise turn |
| ARSessionARCore.RotateRight | android/app/src/main/cpp/arcore/VROARSessionARCore.cpp:381-400 | the Right loop produces a fresh array holding exactly the counter-clockwise turn |
| ARSessionARCore.RotateImageForOrientation | android/app/src/main/cpp/arcore/VROARSessionARCore.cpp:339-402 | Up copies the image and keeps the size; Down reverses it; Left and Right turn it and swap width and height; the stride is the new width |
| ARSessionARCore.Without | android/app/src/main/cpp/arcore/VROARSessionARCore.cpp:434-437 | the erase-remove keeps every other anchor, with its multiplicity and order, and drops every occurrence of the anchor |
| ARSessionARCore.WithoutValue | android/app/src/main/cpp/arcore/VROARSessionARCore.cpp:439-445 | the map keeps exactly the entries whose value is not the anchor, unchanged |
| ARSessionARCore.KeyForTrackable | android/app/src/main/cpp/arcore/VROARSessionARCore.cpp:812-826 | a plane's key is the decimal form of its hash code, an image's key is its name, any other trackable's key is empty |
| ARSessionARCore.Session.constructor | android/app/src/main/cpp/arcore/VROARSessionARCore.cpp:29-48 | a new session finds horizontal planes, has cloud anchors enabled, holds no anchors and no rotated-image buffer |
| ARSessionARCore.Session.SetAnchorDetection | android/app/src/main/cpp/arcore/VROARSessionARCore.cpp:137-165 | the plane-finding mode becomes the one the requested types call for; nothing else changes |
| ARSessionARCore.Session.SetCloudAnchorProvider | android/app/src/main/cpp/arcore/VROARSessionARCore.cpp:167-174 | cloud anchors are disabled exactly when no provider is given; nothing else changes |
| ARSessionARCore.Session.HostCloudAnchor | android/app/src/main/cpp/arcore/VROARSessionARCore.cpp:468-476 | the request reaches the provider exactly when cloud anchors are enabled |
| ARSessionARCore.Session.ResolveCloudAnchor | android/app/src/main/cpp/arcore/VROARSessionARCore.cpp:478-487 | the request reaches the provider exactly when cloud anchors are enabled |
| ARSessionARCore.Session.AddAnchor | android/app/src/main/cpp/arcore/VROARSessionARCore.cpp:406-427 | the anchor is filed under its native key and then its id, and appended to the list |
| ARSessionARCore.Session.RemoveAnchor | android/app/src/main/cpp/arcore/VROARSessionARCore.cpp:429-455 | every occurrence leaves the list and every map entry holding the anchor is erased |
| ARSessionARCore.Session.GetRotatedCameraImageData | android/app/src/main/cpp/arcore/VROARSessionARCore.cpp:920-927 | the result is the session's buffer of exactly the requested size, reused when the size matches and fresh otherwise |
| ARSessionARCore.EraseAnchor | android/app/src/main/cpp/arcore/VROARSessionARCore.cpp:434-437 | the erase-remove loop computes exactly Without |
| ARSessionARCore.EraseValue | android/app/src/main/cpp/arcore/VROARSessionARCore.cpp:439-445 | the erasing walk computes exactly WithoutValue |
| ARSessionARCore.RemoveUndoesAdd | android/app/src/main/cpp/arcore/VROARSessionARCore.cpp:406-455 | removing an anchor undoes adding it when it was not yet known |
| ARSessionARCore.RemovedIsGone | android/app/src/main/cpp/arcore/VROARSessionARCore.cpp:429-445 | after removal the anchor is in neither the list nor any map entry, however often it was added |
| BodyTrackerController.NewJoint | ViroRenderer/VROBodyTrackerController.cpp:579-587 | a joint built from a pose reading keeps its type, confidence, screen point and spawn time and starts with no valid projected transform |
| BodyTrackerController.SetProjectedTransform | ViroRenderer/VROBodyTrackerController.h:61-64 | setting a transform makes it the valid projection and leaves the reading (type, confidence, screen point, spawn time) as it was |
| BodyTrackerController.ClearProjectedTransform | ViroRenderer/VROBodyTrackerController.h:65-68 | clearing returns to the identity with no valid projection and leaves the reading as it was |
| BodyTrackerController.ClearUndoesSet | ViroRenderer/VROBodyTrackerController.h:61-68 | clearing after a set gives the same joint as clearing alone |
| BodyTrackerController.SetOverridesClear | ViroRenderer/VROBodyTrackerController.h:61-68 | setting a transform gives the same joint whether or not it was cleared first |
| BodyTrackerController.TimeoutMs | ViroRenderer/VROBodyTrackerController.cpp:207-222 | the per-joint timeout: 800 ms for the neck, 500 ms for every other joint, and 0 exactly for the pelvis, which has no entry |
| BodyTrackerController.CheckRequiredJoints | ViroRenderer/VROBodyTrackerController.cpp:164-169 | the loop over the required joints succeeds exactly when neck and both hips are all present |
| BodyTrackerController.BoundJoints | ViroRenderer/VROBodyTrackerController.cpp:146-161 | a joint is bound exactly when its bone tag names a bone of the skeleton, and it is bound to that bone |
| BodyTrackerController.BindJoints | ViroRenderer/VROBodyTrackerController.cpp:146-161 | the loop over the bone tags builds exactly the bound-joint map |
| BodyTrackerController.FilterConfident | ViroRenderer/VROBodyTrackerController.cpp:686-691 | the confidence loop keeps exactly the joints above the confidence threshold |
| BodyTrackerController.Placed | ViroRenderer/VROBodyTrackerController.cpp:760-772 | an unprojected joint's transform is the hit point when there is one and is cleared otherwise; its reading is unchanged |
| BodyTrackerController.ProjectedFacts | ViroRenderer/VROBodyTrackerController.cpp:737-781 | while calibrating without a neck the frame passes unchanged and a failed depth test drops it; otherwise each joint kept comes from the frame with its reading and a valid transform, and once unprojected exactly the joints with a hit point survive, at that point |
| BodyTrackerController.UncalibratedFrameIsDropped | ViroRenderer/VROBodyTrackerController.cpp:739-757 | with neither calibration nor a calibrated configuration no joint of the frame survives |
| BodyTrackerController.PlaceJoints | ViroRenderer/VROBodyTrackerController.cpp:760-772 | the unprojection loop places every reported joint |
| BodyTrackerController.RemoveInvalid | ViroRenderer/VROBodyTrackerController.cpp:775-780 | the erase loop keeps exactly the joints with a valid transform |
| BodyTrackerController.ProjectJoints | ViroRenderer/VROBodyTrackerController.cpp:737-781 | projectJointsInto3DSpace computes the projected frame |
| BodyTrackerController.EvictionPartitions | ViroRenderer/VROBodyTrackerController.cpp:697-708 | every cached joint is either kept or evicted as expired, never both |
| BodyTrackerController.SplitExpired | ViroRenderer/VROBodyTrackerController.cpp:697-708 | the eviction loop keeps the unexpired joints and records the expired ones |
| BodyTrackerController.CacheUpdatedFacts | ViroRenderer/VROBodyTrackerController.cpp:783-824 | the updated cache holds every old and new joint type; a new type or any joint while calibrating is taken as reported; otherwise a cached joint is replaced by its new reading exactly when the two are near or the new one is reachable |
| BodyTrackerController.UpdateCachedJoints | ViroRenderer/VROBodyTrackerController.cpp:783-824 | updateCachedJoints computes the updated cache, in both the calibrating and the filtering branch |
| BodyTrackerController.CacheUpdatedUnchanged | ViroRenderer/VROBodyTrackerController.cpp:783-824 | a frame with no new joints leaves the cache as it is |
| BodyTrackerController.TrackedStateFor | ViroRenderer/VROBodyTrackerController.cpp:714-728 | corrected (see Findings): not available exactly without the required joints; full exactly when every bound joint is cached too; limited otherwise |
| BodyTrackerController.AsWrittenAgreesWhenOnlyBoundJointsCached | ViroRenderer/VROBodyTrackerController.cpp:722-728 | when only bound joints are cached, the size comparison as written agrees with the intended rule |
| BodyTrackerController.AsWrittenReportsFullWithMissingJoint | ViroRenderer/VROBodyTrackerController.cpp:722-728 | the size comparison reports full tracking for a cache that lacks a bound joint, where the intended rule reports limited |
| BodyTrackerController.StateChange | ViroRenderer/VROBodyTrackerController.cpp:1212-1222 | the new state is the one given, and the delegate is told exactly when the state changes and a delegate is alive |
| BodyTrackerController.RepeatedStateNotifiesOnce | ViroRenderer/VROBodyTrackerController.cpp:1212-1222 | setting the same state twice never notifies the second time |
| BodyTrackerController.RootOffsetsPlaceJoints | ViroRenderer/VROBodyTrackerController.cpp:853-866 | every cached joint but the neck gets an offset, and the neck plus that offset is the joint's position |
| BodyTrackerController.RestoredFacts | ViroRenderer/VROBodyTrackerController.cpp:826-852 | restoring never changes a cached joint and adds exactly the expired joints, each at the neck plus its last offset, and only outside calibration with the required joints tracked |
| BodyTrackerController.RestoreRecoversLastPosition | ViroRenderer/VROBodyTrackerController.cpp:826-866 | a joint that expires while the neck stays put comes back exactly where it was |
| BodyTrackerController.RestoreJoints | ViroRenderer/VROBodyTrackerController.cpp:840-851 | the restore loop computes the restored cache |
| BodyTrackerController.ComputeRootOffsets | ViroRenderer/VROBodyTrackerController.cpp:853-866 | the offset loop computes every joint's offset from the neck |
| BodyTrackerController.KeepRecent | ViroRenderer/VROBodyTrackerController.cpp:895-903 | trimming a window never lengthens it and leaves no entry older than the start |
| BodyTrackerController.KeepRecentMembers | ViroRenderer/VROBodyTrackerController.cpp:895-903 | the entries kept are exactly the window's entries from the start on |
| BodyTrackerController.KeepRecentIdempotent | ViroRenderer/VROBodyTrackerController.cpp:895-903 | trimming twice is trimming once |
| BodyTrackerController.DropStale | ViroRenderer/VROBodyTrackerController.cpp:895-903 | the remove_if loop over one window computes the trimmed window |
| BodyTrackerController.WindowKeepsCurrentPosition | ViroRenderer/VROBodyTrackerController.cpp:882-903 | with a positive period each cached joint's window ends with this frame's position and holds nothing older than the period |
| BodyTrackerController.LostJointWindowEmpties | ViroRenderer/VROBodyTrackerController.cpp:882-903 | the window of a joint no longer cached runs empty once all its entries are older than the period |
| BodyTrackerController.AppendPositions | ViroRenderer/VROBodyTrackerController.cpp:882-887 | the append loop adds this frame's position to each cached joint's window |
| BodyTrackerController.TrimWindows | ViroRenderer/VROBodyTrackerController.cpp:894-903 | the trimming loop trims every window |
| BodyTrackerController.DampenWindows | ViroRenderer/VROBodyTrackerController.cpp:882-903 | appending then trimming computes the dampened windows |
| BodyTrackerController.TrimmingAppended | ViroRenderer/VROBodyTrackerController.cpp:882-903 | trimming the appended windows is one dampening pass |
| BodyTrackerController.CopyPositions | ViroRenderer/VROBodyTrackerController.cpp:873-880 | without dampening the model joints are the cached positions |
| BodyTrackerController.AsWrittenAveragesEmptyWindow | ViroRenderer/VROBodyTrackerController.cpp:926-940 | a lost joint leaves an empty window behind, and the average as written is still applied to it |
| BodyTrackerController.Smoothed | ViroRenderer/VROBodyTrackerController.cpp:926-940 | corrected (see Findings): a model joint exists exactly for each window that still holds an entry, and it is that window's average |
| BodyTrackerController.FilterFrame | ViroRenderer/VROBodyTrackerController.cpp:684-711 | the first steps of processJoints (confidence filter, projection, eviction, cache update) compute the filtered cache and the expired joints |
| BodyTrackerController.TrackedStateOf | ViroRenderer/VROBodyTrackerController.cpp:714-728 | the required-joints loop then the state test compute the intended tracked state |
| BodyTrackerController.RestoreStep | ViroRenderer/VROBodyTrackerController.cpp:731 | restoreMissingJoints computes the restored cache and the new offsets; whenever it restores, the neck is cached |
| BodyTrackerController.DampenStep | ViroRenderer/VROBodyTrackerController.cpp:869-943 | corrected (uses BodyTrackerController.Smoothed, see Findings): dampenCachedJoints computes the new windows and the model joints |
| BodyTrackerController.ProcessFrame | ViroRenderer/VROBodyTrackerController.cpp:684-735 | corrected (uses BodyTrackerController.TrackedStateFor, see Findings): one frame run step by step gives the processed state, whose tracked state never claims joints the cache lacks |
| BodyTrackerController.ProcessedFrameFacts | ViroRenderer/VROBodyTrackerController.cpp:684-735 | corrected (uses BodyTrackerController.TrackedStateFor, see Findings): after a frame the state is full exactly when every bound joint is cached, no filtered joint is lost, offsets place joints relative to the neck, and the model joints follow the cache or the non-empty windows |
| BodyTrackerController.Controller.constructor | ViroRenderer/VROBodyTrackerController.cpp:98-111 | a new controller is not tracking, not calibrating, unbound, with the initial 250 ms dampening period and empty caches |
| BodyTrackerController.Controller.BindModel | ViroRenderer/VROBodyTrackerController.cpp:116-170 | binding succeeds exactly with a skinner whose skeleton has bones for all required joints; the joint-to-bone map is rebuilt |
| BodyTrackerController.Controller.SetDampeningPeriodMs | ViroRenderer/VROBodyTrackerController.cpp:1228-1230 | the dampening period becomes the one given |
| BodyTrackerController.Controller.SetBodyTrackedState | ViroRenderer/VROBodyTrackerController.cpp:1212-1222 | the state and the notification follow the state-change rule |
| BodyTrackerController.Controller.RestoreMissingJoints | ViroRenderer/VROBodyTrackerController.cpp:826-867 | the cache and the root offsets become the restored ones |
| BodyTrackerController.Controller.DampenCachedJoints | ViroRenderer/VROBodyTrackerController.cpp:869-943 | corrected (uses BodyTrackerController.Smoothed, see Findings): the windows and the model joints become the dampened ones |
| BodyTrackerController.Controller.ProcessJoints | ViroRenderer/VROBodyTrackerController.cpp:684-735 | corrected (uses BodyTrackerController.TrackedStateFor, see Findings): the whole per-frame state becomes the processed state, the delegate is told exactly of a change, and the controller stays valid |
| BodyTrackerController.PinchScale | ViroRenderer/VROBodyTrackerController.h:495-506 | a pinch scales uniformly: each axis is the start scale times the factor |
| BodyTrackerController.EventDelegate.OnPinch | ViroRenderer/VROBodyTrackerController.h:495-506 | with the controller gone nothing changes; a pinch start records the node's scale; any other pinch state sets the node to the start scale times the factor |
| BodyTrackerController.TrackedStateAsWritten | ViroRenderer/VROBodyTrackerController.cpp:720-727 | as written: not available exactly when a required joint is missing; otherwise full exactly when the cache holds as many joints as there are bound joints |
| BodyTrackerController.SmoothedAsWritten | ViroRenderer/VROBodyTrackerController.cpp:926-940 | as written: one average for every joint window, the empty ones included |
| ByteBuffer.DecodeEncode | ViroRenderer/VROByteBuffer.cpp:161-170 | reading back the little-endian bytes of a value that fits gives the value |
| ByteBuffer.EncodeDecode | ViroRenderer/VROByteBuffer.cpp:637-651 | writing out the value read from some bytes gives the same bytes |
| ByteBuffer.Signed | ViroRenderer/VROByteBuffer.cpp:161-181 | the two's-complement reading of a pattern lies in the signed range of its width and stores back as the same pattern |
| ByteBuffer.SignedOfTwosComplement | ViroRenderer/VROByteBuffer.cpp:621-651 | a signed value in range stored as its pattern reads back as itself |
| ByteBuffer.ReadAfterWrite | ViroRenderer/VROByteBuffer.cpp:637-651 | a signed value written at a position reads back as itself from there |
| ByteBuffer.ReadAfterWriteUnsigned | ViroRenderer/VROByteBuffer.cpp:653-667 | an unsigned value or float bit pattern written at a position reads back as itself |
| ByteBuffer.CStringAt | ViroRenderer/VROByteBuffer.cpp:125-131 | the C string at a position is the run of non-NUL bytes there, followed by a NUL inside the buffer |
| ByteBuffer.CStringRoundTrip | ViroRenderer/VROByteBuffer.cpp:573-590 | a string written with its terminator reads back as itself |
| ByteBuffer.TakeUntilNul | ViroRenderer/VROByteBuffer.cpp:274-289 | the bytes kept are the prefix before the first NUL, all of them when there is none |
| ByteBuffer.EveryOtherUtf16 | ViroRenderer/VROByteBuffer.cpp:255-272 | taking every other byte of a Latin-1 string's UTF-16LE bytes recovers the string |
| ByteBuffer.FloatBytes | ViroRenderer/VROByteBuffer.cpp:669-684 | the bytes of a float run are four per float, each quadruple reading back as that float's pattern |
| ByteBuffer.FillGuardMissesOverrun | ViroRenderer/VROByteBuffer.cpp:558-566 | the guard as written never fires while the position is inside the buffer, so 8 bytes pass it on a 4-byte buffer |
| ByteBuffer.PeekIntSignExtension | ViroRenderer/VROByteBuffer.cpp:295-298 | the as-written peek gives -128 for the bytes 0x80 0 0 0, which readInt reads as 128 |
| ByteBuffer.PeekIntOf | ViroRenderer/VROByteBuffer.cpp:161-170 | corrected (see Findings): the intended peek is the int whose pattern is the four bytes, as readInt gives it |
| ByteBuffer.GrownCapacity | ViroRenderer/VROByteBuffer.cpp:454-477 | the new capacity covers what is required and half again the old capacity, and is one of the two |
| ByteBuffer.Buffer.constructor | ViroRenderer/VROByteBuffer.cpp:28-35 | a new buffer owns capacity bytes, with cursor 0 and limit at capacity |
| ByteBuffer.Buffer.FromBytes | ViroRenderer/VROByteBuffer.cpp:37-54 | the buffer holds the given bytes, as a fresh owned copy when copying and as a view otherwise |
| ByteBuffer.Buffer.FromString | ViroRenderer/VROByteBuffer.cpp:56-62 | the buffer is an unowned view of the string's bytes |
| ByteBuffer.Buffer.CopyOf | ViroRenderer/VROByteBuffer.cpp:64-72 | the buffer owns a fresh copy of every byte of the other, cursor at 0 |
| ByteBuffer.Buffer.MoveFrom | ViroRenderer/VROByteBuffer.cpp:74-84 | the new buffer takes over the other's bytes and ownership; the other is left with no bytes but its cursor and limit |
| ByteBuffer.Buffer.MoveAssign | ViroRenderer/VROByteBuffer.cpp:86-99 | the buffer takes over every field of the other, which is left with no bytes |
| ByteBuffer.Buffer.SetPosition | ViroRenderer/VROByteBuffer.cpp:107-111 | the cursor moves to the position given |
| ByteBuffer.Buffer.Skip | ViroRenderer/VROByteBuffer.cpp:113-116 | the cursor advances by the count given |
| ByteBuffer.Buffer.ReadBool | ViroRenderer/VROByteBuffer.cpp:118-123 | reads one byte, true exactly when it is 1 |
| ByteBuffer.Buffer.ReadFloat | ViroRenderer/VROByteBuffer.cpp:141-149 | reads the 4-byte pattern at the cursor and advances past it |
| ByteBuffer.Buffer.ReadDouble | ViroRenderer/VROByteBuffer.cpp:151-159 | reads the 8-byte pattern at the cursor and advances past it |
| ByteBuffer.Buffer.ReadInt | ViroRenderer/VROByteBuffer.cpp:161-170 | reads the signed 4-byte value at the cursor and advances past it |
| ByteBuffer.Buffer.ReadShort | ViroRenderer/VROByteBuffer.cpp:172-181 | reads the signed 2-byte value at the cursor and advances past it |
| ByteBuffer.Buffer.ReadUnsignedShort | ViroRenderer/VROByteBuffer.cpp:183-192 | reads the unsigned 2-byte value at the cursor and advances past it |
| ByteBuffer.Buffer.ReadByte | ViroRenderer/VROByteBuffer.cpp:194-201 | reads the signed byte at the cursor, the same one peekByte sees, and advances |
| ByteBuffer.Buffer.ReadUnsignedByte | ViroRenderer/VROByteBuffer.cpp:203-210 | reads the byte at the cursor and advances |
| ByteBuffer.Buffer.ReadLong | ViroRenderer/VROByteBuffer.cpp:212-221 | reads the 8-byte value at the cursor and advances past it |
| ByteBuffer.Buffer.ReadStringNullTerm | ViroRenderer/VROByteBuffer.cpp:125-131 | reads the C string at the cursor and moves past its terminator |
| ByteBuffer.Buffer.ReadSTLStringUTF8NullTerm | ViroRenderer/VROByteBuffer.cpp:249-253 | reads the C string at the cursor, as readStringNullTerm does |
| ByteBuffer.Buffer.ReadSTLString | ViroRenderer/VROByteBuffer.cpp:223-236 | reads a 2-byte count n and then n UTF-16LE units, keeping each low byte |
| ByteBuffer.Buffer.ReadSTLStringUTF8 | ViroRenderer/VROByteBuffer.cpp:238-247 | reads a 2-byte count n and then n bytes |
| ByteBuffer.Buffer.ReadSTLText | ViroRenderer/VROByteBuffer.cpp:255-272 | reads a 4-byte count n and n UTF-16LE units, keeping the low bytes up to the first NUL |
| ByteBuffer.Buffer.ReadSTLTextUTF8 | ViroRenderer/VROByteBuffer.cpp:274-289 | reads a 4-byte count n and n bytes, keeping them up to the first NUL |
| ByteBuffer.Buffer.PeekByte | ViroRenderer/VROByteBuffer.cpp:291-293 | the signed byte at the cursor, without moving it |
| ByteBuffer.Buffer.PeekInt | ViroRenderer/VROByteBuffer.cpp:295-298 | corrected (see Findings): the int at the cursor, without moving it, as readInt would read it |
| ByteBuffer.Buffer.CopyBytes | ViroRenderer/VROByteBuffer.cpp:308-323 | aborts exactly when the bytes run past the capacity; otherwise copies them out and advances |
| ByteBuffer.Buffer.CopyChars | ViroRenderer/VROByteBuffer.cpp:325-342 | aborts exactly on overrun; otherwise copies the chars out and advances |
| ByteBuffer.Buffer.CopyFloats | ViroRenderer/VROByteBuffer.cpp:344-361 | aborts exactly when 4 bytes per float overrun; otherwise copies and advances |
| ByteBuffer.Buffer.CopyLongs | ViroRenderer/VROByteBuffer.cpp:363-380 | aborts exactly when 8 bytes per long overrun; otherwise copies and advances |
| ByteBuffer.Buffer.CopyShorts | ViroRenderer/VROByteBuffer.cpp:382-399 | aborts exactly when 2 bytes per short overrun; otherwise copies and advances |
| ByteBuffer.Buffer.CopyInts | ViroRenderer/VROByteBuffer.cpp:401-418 | aborts exactly when 4 bytes per int overrun; otherwise copies and advances |
| ByteBuffer.Buffer.ReadNumChars | ViroRenderer/VROByteBuffer.cpp:420-435 | returns the cursor as the view's start; aborts exactly on overrun, otherwise advances past the chars |
| ByteBuffer.Buffer.ReadNumShorts | ViroRenderer/VROByteBuffer.cpp:437-452 | returns the cursor as the view's start; aborts exactly on overrun, otherwise advances past 2 bytes per short |
| ByteBuffer.Buffer.Grow | ViroRenderer/VROByteBuffer.cpp:454-477 | does nothing when the bytes fit; aborts exactly when they do not and the buffer does not own its bytes; otherwise grows to the grown capacity keeping the contents |
| ByteBuffer.Buffer.Shrink | ViroRenderer/VROByteBuffer.cpp:479-492 | does nothing unless the buffer is larger than the size; otherwise keeps the first size bytes and rewinds |
| ByteBuffer.Buffer.WriteBytes | ViroRenderer/VROByteBuffer.cpp:494-509 | aborts exactly on overrun, leaving the buffer as it was; otherwise splices the bytes in at the cursor and advances |
| ByteBuffer.Buffer.WriteBuffer | ViroRenderer/VROByteBuffer.cpp:511-537 | aborts exactly when either side overruns; otherwise moves the bytes across and advances both cursors |
| ByteBuffer.Buffer.WriteChars | ViroRenderer/VROByteBuffer.cpp:539-556 | aborts exactly on overrun; otherwise writes the string's characters without terminator |
| ByteBuffer.Buffer.Fill | ViroRenderer/VROByteBuffer.cpp:558-571 | corrected (see Findings): aborts exactly when the copies would run past the capacity; otherwise writes numBytes copies of the value |
| ByteBuffer.Buffer.WriteStringNullTerm | ViroRenderer/VROByteBuffer.cpp:573-590 | aborts exactly when string and terminator overrun; otherwise writes both |
| ByteBuffer.Buffer.Rewind | ViroRenderer/VROByteBuffer.cpp:592-594 | the cursor returns to 0 |
| ByteBuffer.Buffer.Clear | ViroRenderer/VROByteBuffer.cpp:596-599 | every byte becomes zero and the cursor returns to 0 |
| ByteBuffer.Buffer.WriteBool | ViroRenderer/VROByteBuffer.cpp:601-603 | aborts exactly on overrun; otherwise writes 1 or 0 |
| ByteBuffer.Buffer.WriteByte | ViroRenderer/VROByteBuffer.cpp:605-619 | aborts exactly on overrun; otherwise writes the byte's pattern |
| ByteBuffer.Buffer.WriteShort | ViroRenderer/VROByteBuffer.cpp:621-635 | aborts exactly on overrun; otherwise writes the 2-byte pattern |
| ByteBuffer.Buffer.WriteInt | ViroRenderer/VROByteBuffer.cpp:637-651 | aborts exactly on overrun; otherwise writes the 4-byte pattern |
| ByteBuffer.Buffer.WriteFloat | ViroRenderer/VROByteBuffer.cpp:653-667 | aborts exactly on overrun; otherwise writes the float's 4-byte pattern |
| ByteBuffer.Buffer.WriteFloats | ViroRenderer/VROByteBuffer.cpp:669-684 | aborts exactly on overrun; otherwise writes every float's pattern in order |
| ByteBuffer.Buffer.WriteDouble | ViroRenderer/VROByteBuffer.cpp:686-700 | aborts exactly on overrun; otherwise writes the 8-byte pattern |
| ByteBuffer.Buffer.WriteLong | ViroRenderer/VROByteBuffer.cpp:702-716 | aborts exactly on overrun; otherwise writes the 8-byte value |
| ByteBuffer.Buffer.Flip | ViroRenderer/VROByteBuffer.cpp:718-721 | the limit becomes the old cursor and the cursor returns to 0 |
| ByteBuffer.Buffer.Remaining | ViroRenderer/VROByteBuffer.cpp:723-725 | limit minus cursor, whenever it fits a 32-bit int |
| ByteBuffer.Buffer.HasAvailable | ViroRenderer/VROByteBuffer.cpp:727-729 | true exactly when something remains, whenever the difference fits a 32-bit int |
| ByteBuffer.Buffer.WriteToBufferAndRewind | ViroRenderer/VROByteBuffer.cpp:763-788 | aborts exactly when either side overruns; otherwise copies the bytes to the destination, moving only its cursor |
| ByteBuffer.Buffer.WriteToBuffer | ViroRenderer/VROByteBuffer.cpp:758-761 | as the copy above, and this cursor also moves past the bytes |
| ByteBuffer.Buffer.Split | ViroRenderer/VROByteBuffer.cpp:814-820 | a fresh owned buffer holding exactly the bytes of the slice, cursor 0 |
| ByteBuffer.FillOverrunAsWritten | ViroRenderer/VROByteBuffer.cpp:558-566 | as written: the guard fires only on a real overrun, but it misses some |
| ByteBuffer.FillOverrun | ViroRenderer/VROByteBuffer.cpp:558-566 | corrected: fires wherever the written guard does, and agrees with it when no bytes are asked for |
| ByteBuffer.PeekIntAsWritten | ViroRenderer/VROByteBuffer.cpp:295-298 | as written, on a target where `char` is signed: a low byte of 0x80 or more decides the result alone, as that byte sign-extended |
| CharmapCoverage.ReadU16 | ViroRenderer/VROCharmapCoverage.cpp:39-41 | the big-endian 16-bit value: high byte first, low byte second |
| CharmapCoverage.ReadU24 | ViroRenderer/VROCharmapCoverage.cpp:43-46 | the big-endian 24-bit value: the first byte above the next two |
| CharmapCoverage.ReadU32 | ViroRenderer/VROCharmapCoverage.cpp:48-51 | the big-endian 32-bit value: the first two bytes above the last two |
| CharmapCoverage.AddRange | ViroRenderer/VROCharmapCoverage.cpp:55-73 | accepted exactly when the start is not below the vector's last end; a range touching the last one extends it, any other is appended, and a refused one leaves the vector as it was |
| CharmapCoverage.Range.InvalidRange | ViroRenderer/VROCharmapCoverage.cpp:78-80 | the invalid range is not valid |
| CharmapCoverage.Range.Merge | ViroRenderer/VROCharmapCoverage.cpp:94-96 | the merge of two intersecting ranges holds exactly the points of both |
| CharmapCoverage.IntersectsIffCommonPoint | ViroRenderer/VROCharmapCoverage.cpp:88-91 | two valid ranges intersect exactly when they share a point |
| CharmapCoverage.GetRange | ViroRenderer/VROCharmapCoverage.cpp:101-103 | valid exactly when the index has a range, and then it is that range |
| CharmapCoverage.MergeRanges | ViroRenderer/VROCharmapCoverage.cpp:106-166 | the merge of two sorted range vectors is sorted and covers exactly the union of what both cover |
| CharmapCoverage.AddSegmentFormat4 | ViroRenderer/VROCharmapCoverage.cpp:181-220 | one segment adds exactly the code points it maps to a glyph, and is refused exactly when one of them is below the vector's end |
| CharmapCoverage.DeltaShortcut | ViroRenderer/VROCharmapCoverage.cpp:192-196 | when the delta moves the segment's last code point past the segment's length, no code point of the segment maps to glyph 0 |
| CharmapCoverage.GetCoverageFormat4 | ViroRenderer/VROCharmapCoverage.cpp:169-223 | refuses a short header or a segment array past the table; on success the vector is sorted, below 0x10000, and covers exactly the old code points plus those the segments map |
| CharmapCoverage.SegmentRefused | ViroRenderer/VROCharmapCoverage.cpp:184-200 | a refused segment means the subtable's mapped code points do not ascend |
| CharmapCoverage.GetCoverageFormat12 | ViroRenderer/VROCharmapCoverage.cpp:226-268 | refuses a short header, too many groups or groups past the table; on success the vector is sorted, stops at the last Unicode code point, and covers exactly the old code points plus the groups' |
| CharmapCoverage.Format12BelowMax | ViroRenderer/VROCharmapCoverage.cpp:253-262 | format 12 never adds a code point past the last Unicode code point |
| CharmapCoverage.NonDefaultUVSRanges | ViroRenderer/VROCharmapCoverage.cpp:312-337 | a non-default UVS table is read exactly when it fits and its mappings ascend, and then covers exactly its mapped code points |
| CharmapCoverage.DefaultUVSRanges | ViroRenderer/VROCharmapCoverage.cpp:339-375 | a default UVS table is read exactly when it fits and its records ascend, and then covers exactly the code points of its records that the base coverage has |
| CharmapCoverage.GetVSCoverage | ViroRenderer/VROCharmapCoverage.cpp:306-377 | fails when either table present does not fit; on success covers exactly the non-default code points together with the default ones the base has |
| CharmapCoverage.Outcomes | ViroRenderer/VROCharmapCoverage.cpp:401-425 | one outcome per variation-selector record, in file order |
| CharmapCoverage.GetCoverageFormat14 | ViroRenderer/VROCharmapCoverage.cpp:379-427 | the per-selector coverage read from the records, each stored at its selector's index from the first record that can be read |
| CharmapCoverage.ReadVSRecords | ViroRenderer/VROCharmapCoverage.cpp:401-425 | the record loop stores exactly what the records' outcomes give |
| CharmapCoverage.RecordStored | ViroRenderer/VROCharmapCoverage.cpp:420-423 | an accepted record's coverage goes to its selector's slot, the vector grown with empty slots as needed |
| CharmapCoverage.GetTablePriority | ViroRenderer/VROCharmapCoverage.cpp:274-301 | the index of the platform and encoding pair in the preference list, or the lowest priority exactly when the pair is not listed |
| CharmapCoverage.ReadEncodingRecord | ViroRenderer/VROCharmapCoverage.cpp:452-510 | decides whether an encoding record is a usable coverage table or the variation-sequences table, and its priority |
| CharmapCoverage.SelectTables | ViroRenderer/VROCharmapCoverage.cpp:452-517 | the directory scan picks the best-priority usable table (none exactly when there is no candidate) and the first variation-sequences table |
| CharmapCoverage.FirstIsFinal | ViroRenderer/VROCharmapCoverage.cpp:512-515 | once a top-priority table and a variation table are found, the later records change neither choice |
| CharmapCoverage.BestIsUnique | ViroRenderer/VROCharmapCoverage.cpp:506-510 | there is at most one best candidate |
| CharmapCoverage.FirstVSIsUnique | ViroRenderer/VROCharmapCoverage.cpp:463-468 | there is at most one first variation-sequences table |
| CharmapCoverage.ReadTable | ViroRenderer/VROCharmapCoverage.cpp:524-538 | the chosen table's coverage is exactly what its format's parser reads, or empty when the parser refuses it |
| CharmapCoverage.GetCoverage | ViroRenderer/VROCharmapCoverage.cpp:429-548 | empty on a malformed directory; otherwise exactly the best table's code points when it parses, empty when none qualifies or it fails; the variation coverage is read from the first format-14 table, and is empty exactly when there is none |
| DistortionRenderer.Round | ViroRenderer/VRODistortionRenderer.cpp:212-215 | C's round: the nearest integer, halves away from zero |
| DistortionRenderer.InitViewportForEye | ViroRenderer/VRODistortionRenderer.cpp:259-274 | an eye's viewport starts at the offset given, on the bottom edge, with the eye point placed by the left and bottom tangents and the extent by all four |
| DistortionRenderer.EyesSideBySide | ViroRenderer/VRODistortionRenderer.cpp:182-205 | the right eye's viewport starts where the left one ends, at the same height |
| DistortionRenderer.PixelsWithinHalf | ViroRenderer/VRODistortionRenderer.cpp:211-221 | each rounded pixel extent is within half a pixel of the exact scaled value |
| DistortionRenderer.Renderer.constructor | ViroRenderer/VRODistortionRenderer.cpp:14-44 | a new renderer uses an RGB byte texture at scale 1 with state restoring and vignette on, aberration off, nothing pending and no frame drawn |
| DistortionRenderer.Renderer.SetTextureFormat | ViroRenderer/VRODistortionRenderer.cpp:60-72 | refused while a frame is drawn; otherwise takes the format and marks it changed exactly when it differs |
| DistortionRenderer.Renderer.UpdateTextureAndDistortionMesh | ViroRenderer/VRODistortionRenderer.cpp:223-257 | the texture gets the capped pixel size of both eyes, and nothing is left pending |
| DistortionRenderer.Renderer.BeforeDrawFrame | ViroRenderer/VRODistortionRenderer.cpp:74-85 | a frame is now drawn, and a pending field of view or format has been applied; otherwise the texture keeps its size |
| DistortionRenderer.Renderer.AfterDrawFrame | ViroRenderer/VRODistortionRenderer.cpp:87-92 | drawing ends with nothing pending |
| DistortionRenderer.Renderer.SetResolutionScale | ViroRenderer/VRODistortionRenderer.cpp:152-155 | the scale is taken and the viewports must be recomputed |
| DistortionRenderer.Renderer.SetVignetteEnabled | ViroRenderer/VRODistortionRenderer.cpp:177-180 | the vignette flag is taken and the meshes must be rebuilt |
| DistortionRenderer.Renderer.SetRestoreGLStateEnabled | ViroRenderer/VRODistortionRenderer.cpp:161-163 | the flag is taken and nothing is marked pending |
| DistortionRenderer.Renderer.SetChromaticAberrationEnabled | ViroRenderer/VRODistortionRenderer.cpp:169-171 | the flag is taken and nothing is marked pending |
| DistortionRenderer.Renderer.FovDidChange | ViroRenderer/VRODistortionRenderer.cpp:182-205 | ignored while a frame is drawn; otherwise both eyes are laid side by side, the pixel densities follow from the screen and eye distance, and meshes and viewports are marked pending |
| DistortionRenderer.Renderer.UpdateViewports | ViroRenderer/VRODistortionRenderer.cpp:211-221 | both eyes in rounded pixels at the resolution scale, and the viewports are up to date |
| DistortionRenderer.TextureWidthPx | ViroRenderer/VRODistortionRenderer.cpp:234-239 | the width of both eyes side by side in pixels, capped at the driver's largest texture |
| DistortionRenderer.TextureHeightPx | ViroRenderer/VRODistortionRenderer.cpp:235-240 | the height of the taller eye in pixels, capped at the driver's largest texture |
| DistortionRenderer.IndicesInGrid | ViroRenderer/VRODistortionRenderer.cpp:648-673 | every index names a vertex of the 40 by 40 grid |
| DistortionRenderer.StripJoins | ViroRenderer/VRODistortionRenderer.cpp:650-656 | the index before each new strip repeats its neighbours, so strips join with degenerate triangles only |
| DistortionRenderer.StripsAlternate | ViroRenderer/VRODistortionRenderer.cpp:657-669 | even strips run left to right and odd ones right to left, each within one grid row |
| DistortionRenderer.EveryVertexUsed | ViroRenderer/VRODistortionRenderer.cpp:648-673 | every vertex of the grid appears in the index list |
| DistortionRenderer.FillIndices | ViroRenderer/VRODistortionRenderer.cpp:645-674 | the index loop fills all 3158 indices with the triangle-strip order |
| DistortionRenderer.FillStrip | ViroRenderer/VRODistortionRenderer.cpp:650-673 | one strip writes its column pairs and leaves the offset at the start of the next strip |
| DistortionRenderer.Vignette | ViroRenderer/VRODistortionRenderer.cpp:625-629 | the vignette term lies in [0, 1], is 1 when disabled or inside the border and 0 a full border width past it |
| DistortionRenderer.FillVertices | ViroRenderer/VRODistortionRenderer.cpp:587-642 | vertex (row, col) is stored as nine floats from offset 9 (40 row + col), and every vignette slot is in [0, 1] |
| DistortionRenderer.WriteRecord | ViroRenderer/VRODistortionRenderer.cpp:631-641 | stores one vertex's nine floats at the offset and leaves the rest alone |
| DriverOpenGL.BlendCalls | ViroRenderer/VRODriverOpenGL.h:169-211 | switching to the mode already set issues no call |
| DriverOpenGL.CullCallsAgree | ViroRenderer/VRODriverOpenGL.h:150-167 | after the cull calls the context agrees with the new cull mode and nothing but culling changed |
| DriverOpenGL.BlendCallsAgree | ViroRenderer/VRODriverOpenGL.h:169-211 | after the blend calls a context that agreed with the old mode agrees with the new one, and nothing but blending changed |
| DriverOpenGL.FrameResetRun | ViroRenderer/VRODriverOpenGL.h:52-78 | whatever the context held, the frame-reset calls leave it in the frame's starting state |
| DriverOpenGL.BlendMirrors | ViroRenderer/VRODriverOpenGL.h:169-211 | switching the blend mode keeps a context that mirrors the cache mirroring it |
| DriverOpenGL.CullMirrors | ViroRenderer/VRODriverOpenGL.h:150-167 | switching the cull mode keeps a context that mirrors the cache mirroring it |
| DriverOpenGL.FrameStartMirrors | ViroRenderer/VRODriverOpenGL.h:52-78 | after the frame-reset calls the context mirrors the frame's starting cache |
| DriverOpenGL.PurgeDecision | ViroRenderer/VRODriverOpenGL.h:80-91 | purge exactly when at least 120 frames passed since the last purge; force it exactly past 1200; a forced purge is a purge |
| DriverOpenGL.Schedule | ViroRenderer/VRODriverOpenGL.h:80-91 | one purge decision per frame |
| DriverOpenGL.ConsecutiveFramesSchedule | ViroRenderer/VRODriverOpenGL.h:80-91 | seeing every frame, the driver purges every 120th frame and never forces a purge |
| DriverOpenGL.GPUTypeFor | ViroRenderer/VRODriverOpenGL.h:339-364 | a Qualcomm vendor with an old Adreno renderer gives Adreno 330 or older; ARM with Mali gives Mali; otherwise the type is kept |
| DriverOpenGL.TypefaceKeyInjective | ViroRenderer/VRODriverOpenGL.h:415-437 | distinct typeface requests never share a cache key |
| DriverOpenGL.Driver.constructor | ViroRenderer/VRODriverOpenGL.h:38-50 | the cache starts with a normal GPU, purge frame 0, no gamma pass, depth and colour writes and depth reads on, the stencil flag as given, no culling, alpha blending, nothing bound, empty UBO and typeface caches and an empty shader factory |
| DriverOpenGL.Driver.WillRenderFrame | ViroRenderer/VRODriverOpenGL.h:52-78 | the cache and the GL context are both reset to the frame's starting state and agree afterwards |
| DriverOpenGL.Driver.ResetCache | ViroRenderer/VRODriverOpenGL.h:57-74 | the cached state becomes the frame's starting state |
| DriverOpenGL.Driver.DidRenderFrame | ViroRenderer/VRODriverOpenGL.h:80-91 | purges as the purge decision says and records the frame exactly when it purged |
| DriverOpenGL.Driver.SetDepthWritingEnabled | ViroRenderer/VRODriverOpenGL.h:108-120 | records the flag, issuing the depth-mask call exactly when it changes; a synced context stays synced |
| DriverOpenGL.Driver.SetDepthReadingEnabled | ViroRenderer/VRODriverOpenGL.h:122-134 | records the flag, issuing the depth-test call exactly when it changes; a synced context stays synced |
| DriverOpenGL.Driver.SetStencilTestEnabled | ViroRenderer/VRODriverOpenGL.h:136-148 | records the flag, issuing the stencil call exactly when it changes; a synced context stays synced |
| DriverOpenGL.Driver.SetColorWritingEnabled | ViroRenderer/VRODriverOpenGL.h:213-225 | records the flag, issuing the color-mask call exactly when it changes; a synced context stays synced |
| DriverOpenGL.Driver.SetCullMode | ViroRenderer/VRODriverOpenGL.h:150-167 | records the mode, issuing the cull calls exactly when it changes; a synced context stays synced |
| DriverOpenGL.Driver.SetBlendingMode | ViroRenderer/VRODriverOpenGL.h:169-211 | records the mode and issues the blend calls from the old mode; a synced context stays synced |
| DriverOpenGL.Driver.BindShader | ViroRenderer/VRODriverOpenGL.h:227-243 | records the program; nothing happens when it is already bound; unbinding issues glUseProgram(0) |
| DriverOpenGL.Driver.UnbindShader | ViroRenderer/VRODriverOpenGL.h:245-251 | forgets the bound shader, issuing glUseProgram(0) exactly when one was bound |
| DriverOpenGL.Driver.LiveTarget | ViroRenderer/VRODriverOpenGL.h:253-258 | the bound render target exactly while its owner still holds it |
| DriverOpenGL.Driver.BindRenderTarget | ViroRenderer/VRODriverOpenGL.h:253-285 | binding the bound target does nothing; otherwise the live old target is released as asked and the new one bound |
| DriverOpenGL.Driver.UnbindRenderTarget | ViroRenderer/VRODriverOpenGL.h:287-293 | the live bound target is invalidated and forgotten |
| DriverOpenGL.Driver.ReadGPUType | ViroRenderer/VRODriverOpenGL.h:339-364 | records the GPU type the vendor and renderer strings identify |
| DriverOpenGL.Driver.GetLightingUBO | ViroRenderer/VRODriverOpenGL.h:389-397 | the UBO cached for the hash exactly while it is alive |
| DriverOpenGL.Driver.CreateLightingUBO | ViroRenderer/VRODriverOpenGL.h:399-409 | the new UBO is filed under the hash, replacing any older one, and returned |
| DriverOpenGL.Driver.NewTypefaceCollection | ViroRenderer/VRODriverOpenGL.h:415-437 | the collection cached under the request's key while alive, otherwise the new one, cached and returned |
| DriverOpenGL.Driver.SetHasSoftwareGammaPass | ViroRenderer/VRODriverOpenGL.h:366-368 | records the flag and nothing else changes |
| GeometrySubstrateOpenGL.PrimitiveTypeRoundTrip | ViroRenderer/VROGeometrySubstrateOpenGL.cpp:193-210 | each primitive type gets its own GL mode, which maps back to it |
| GeometrySubstrateOpenGL.ParseVertexFormat | ViroRenderer/VROGeometrySubstrateOpenGL.cpp:168-191 | a format exactly for 2- or 4-byte components, with the source's component count; float components get a float type, 2-byte ones a half or short type |
| GeometrySubstrateOpenGL.ElementFor | ViroRenderer/VROGeometrySubstrateOpenGL.cpp:55-73 | the element's index type follows its index width, its count is the counted indices, and its mode is its primitive type's |
| GeometrySubstrateOpenGL.GroupMembers | ViroRenderer/VROGeometrySubstrateOpenGL.cpp:82-94 | a group holds exactly the sources reading its data array |
| GeometrySubstrateOpenGL.MaxSize | ViroRenderer/VROGeometrySubstrateOpenGL.cpp:102-106 | a group's buffer size is the largest vertex count times stride of its sources, or 0 |
| GeometrySubstrateOpenGL.Attributes | ViroRenderer/VROGeometrySubstrateOpenGL.cpp:119-131 | one attribute per source of the group, in order, with the source's attribute index, format and offset |
| GeometrySubstrateOpenGL.SortedIds | ViroRenderer/VROGeometrySubstrateOpenGL.cpp:99 | the data ids in ascending order, each once |
| GeometrySubstrateOpenGL.DescriptorsShape | ViroRenderer/VROGeometrySubstrateOpenGL.cpp:99-134 | one descriptor per distinct data array, in ascending id order, each with one attribute per source of its group |
| GeometrySubstrateOpenGL.DescriptorIds | ViroRenderer/VROGeometrySubstrateOpenGL.cpp:99-134 | the i-th descriptor is the one for the i-th smallest data array |
| GeometrySubstrateOpenGL.GroupsPartition | ViroRenderer/VROGeometrySubstrateOpenGL.cpp:82-94 | the groups, in descriptor order, hold every source exactly once |
| GeometrySubstrateOpenGL.Substrate.constructor | ViroRenderer/VROGeometrySubstrateOpenGL.cpp:21-37 | the elements and the descriptors are those read from the geometry, with the skinner's bone sources appended, and a bone UBO exactly with a skinner |
| GeometrySubstrateOpenGL.Substrate.ReadGeometryElements | ViroRenderer/VROGeometrySubstrateOpenGL.cpp:55-73 | one GL element per geometry element is appended, in order |
| GeometrySubstrateOpenGL.Substrate.ReadGeometrySources | ViroRenderer/VROGeometrySubstrateOpenGL.cpp:75-135 | aborts exactly when a source has an unsupported component size; otherwise appends the descriptors of the grouped sources |
| GeometrySubstrateOpenGL.BuildDescriptors | ViroRenderer/VROGeometrySubstrateOpenGL.cpp:99-134 | the descriptor loop builds every group's descriptor in id order, and fails exactly when some source's format aborts |
| GeometrySubstrateOpenGL.BuildDescriptor | ViroRenderer/VROGeometrySubstrateOpenGL.cpp:100-133 | one group's descriptor: the first source's stride, the group's buffer size and its attributes |
| GeometrySubstrateOpenGL.GroupSources | ViroRenderer/VROGeometrySubstrateOpenGL.cpp:82-94 | the grouping loop maps each data array read to exactly its sources, in source order |
| GeometrySubstrateOpenGL.BufferSize | ViroRenderer/VROGeometrySubstrateOpenGL.cpp:102-106 | the size loop computes the group's largest vertex count times stride |
| GeometrySubstrateOpenGL.GroupAttributes | ViroRenderer/VROGeometrySubstrateOpenGL.cpp:119-131 | the attribute loop builds the group's attributes, failing exactly when a format aborts |
| GltfLoader.GeometryAttributeIff | ViroRenderer/VROGLTFLoader.cpp:30-51 | a name maps to a supported semantic exactly when it equals that semantic's glTF name up to case; any other name is Invalid |
| GltfLoader.GeometryAttributeIgnoresCase | ViroRenderer/VROGLTFLoader.cpp:30-51 | names that agree up to case map to the same semantic |
| GltfLoader.AttributeNameRoundTrip | ViroRenderer/VROGLTFLoader.cpp:30-51 | each supported semantic is recovered from its own name |
| GltfLoader.GetComponentType | ViroRenderer/VROGLTFLoader.cpp:53-78 | succeeds exactly for the six glTF component codes, and the type found has that code |
| GltfLoader.ComponentTypeRoundTrip | ViroRenderer/VROGLTFLoader.cpp:53-78 | each component type is recovered from its code |
| GltfLoader.GetComponent | ViroRenderer/VROGLTFLoader.cpp:80-108 | succeeds exactly for SCALAR, VEC2-4 and MAT2-4, and the type found has that name |
| GltfLoader.AccessorTypeRoundTrip | ViroRenderer/VROGLTFLoader.cpp:80-108 | each accessor type is recovered from its name |
| GltfLoader.GetPrimitiveType | ViroRenderer/VROGLTFLoader.cpp:110-137 | succeeds exactly for points, lines, triangles and triangle strips, and the type found has that mode |
| GltfLoader.PrimitiveTypeRoundTrip | ViroRenderer/VROGLTFLoader.cpp:110-137 | each primitive type is recovered from its mode |
| GltfLoader.GetFilterMode | ViroRenderer/VROGLTFLoader.cpp:139-166 | Nearest exactly for the three modes that sample the nearest texel; every other mode, known or not, gives Linear |
| GltfLoader.GetWrappingMode | ViroRenderer/VROGLTFLoader.cpp:168-179 | CLAMP_TO_EDGE exactly gives ClampToBorder, MIRRORED_REPEAT exactly gives Mirror, and everything else Repeat |
| GltfLoader.AcceptManifest | ViroRenderer/VROGLTFLoader.cpp:203-220 | a manifest is accepted exactly when the parser reported no error, succeeded, and the version is at least 2.0 |
| GltfLoader.IndexGuardAsWrittenRefusesNothing | ViroRenderer/VROGLTFLoader.cpp:422-429 | with enumerators compared by byte size, the guard as written refuses no index accessor |
| GltfLoader.IndexGuardAsWrittenAcceptsFloats | ViroRenderer/VROGLTFLoader.cpp:422-429 | the guard as written lets SCALAR and VEC3 float indices through, which the intended guard refuses |
| GltfLoader.IndexGuardPasses | ViroRenderer/VROGLTFLoader.cpp:422-429 | corrected (see Findings): the intended guard passes exactly SCALAR accessors of the four integer index types, each 1, 2 or 4 bytes wide |
| GltfLoader.IsFloatBySize | ViroRenderer/VROGLTFLoader.cpp:486 | the float test compares sizes, so it holds for FLOAT and UNSIGNED_INT alike, and for FLOAT alone among the vertex component types |
| GltfLoader.ProcessVertexElement | ViroRenderer/VROGLTFLoader.cpp:394-457 | corrected (uses the intended index guard, IndexGuardRefuses): accepted exactly for a supported mode with SCALAR integer indices of a known type; the element spans count times stride bytes from the accessor's offset and records the primitive count |
| GltfLoader.AttributeSources | ViroRenderer/VROGLTFLoader.cpp:459-528 | every source made has a supported semantic and the primitive's element; no more sources than attributes |
| GltfLoader.UnsupportedAttributesSkipped | ViroRenderer/VROGLTFLoader.cpp:470-476 | unsupported attribute names never fail a primitive and never produce a source |
| GltfLoader.AttributeSourcesFailureSticks | ViroRenderer/VROGLTFLoader.cpp:480-482 | once a supported attribute fails, every longer attribute list fails |
| GltfLoader.MeshMaterials | ViroRenderer/VROGLTFLoader.cpp:372-384 | the materials the primitives name, in order, or a single default material when none names one |
| GltfLoader.NamedMaterialsEmpty | ViroRenderer/VROGLTFLoader.cpp:372-384 | no primitive names a material exactly when the named list is empty |
| GltfLoader.BuildTexture | ViroRenderer/VROGLTFLoader.cpp:651-672 | a texture of the image with the sampler's wrap and filter modes, or Repeat and Linear without a sampler |
| GltfLoader.Loader.constructor | ViroRenderer/VROGLTFLoader.cpp:226-227 | a load starts with both caches cleared |
| GltfLoader.Loader.ProcessVertexAttributes | ViroRenderer/VROGLTFLoader.cpp:459-528 | the sources are the attribute sources, the data cache only grows and the texture cache is untouched |
| GltfLoader.Loader.ProcessMesh | ViroRenderer/VROGLTFLoader.cpp:350-392 | corrected (uses GltfLoader.IndexGuardRefuses, see Findings): fails without primitives or when any primitive fails; otherwise one element per primitive, all their sources, the mesh's materials and name |
| GltfLoader.Loader.GetTexture | ViroRenderer/VROGLTFLoader.cpp:629-675 | nothing for a negative image; the cached texture for an image seen before; otherwise the built texture, cached under the image, or nothing when the image does not decode |
| GltfLoader.IndexGuardRefusesAsWritten | ViroRenderer/VROGLTFLoader.cpp:422-429 | as written: whatever the written guard refuses, the intended guard refuses too |
| GltfLoader.IndexGuardRefuses | ViroRenderer/VROGLTFLoader.cpp:422-429 | corrected: refuses every non-SCALAR accessor and every FLOAT or BYTE component type |
| KeenClient.FirstInitializeWins | android/virometricsclient/src/main/java/com/viro/metrics/java/ViroKeenClient.java:78-89 | after any sequence of initialize calls the client is the one already held, or else the first non-null argument; none when every argument was null |
| KeenClient.ClientSingleton.Initialize | android/virometricsclient/src/main/java/com/viro/metrics/java/ViroKeenClient.java:78-89 | a null client is refused with an error; the first non-null client is kept and later ones are ignored |
| KeenClient.ClientSingleton.Client | android/virometricsclient/src/main/java/com/viro/metrics/java/ViroKeenClient.java:64-69 | the held client, or the not-initialized error exactly when none is held |
| KeenClient.ClientSingleton.IsInitialized | android/virometricsclient/src/main/java/com/viro/metrics/java/ViroKeenClient.java:96-98 | true exactly when a client is held |
| KeenClient.ValidValueIff | android/virometricsclient/src/main/java/com/viro/metrics/java/ViroKeenClient.java:1255-1269 | a value is valid exactly when its keys are allowed, its strings are short enough and its maps are nested no deeper than the remaining allowance |
| KeenClient.ValidRootEventIff | android/virometricsclient/src/main/java/com/viro/metrics/java/ViroKeenClient.java:1220-1245 | a root event is valid exactly when its keys, strings and nesting depth are within the limits, the root included |
| KeenClient.MergeGlobalProperties | android/virometricsclient/src/main/java/com/viro/metrics/java/ViroKeenClient.java:1140-1151 | without globals nothing changes; otherwise the keen part of the globals overrides the keen properties and the other globals override the event's properties, and the globals themselves are untouched |
| KeenClient.ValidateAndBuildEvent | android/virometricsclient/src/main/java/com/viro/metrics/java/ViroKeenClient.java:1084-1130 | fails without a write key, then for an invalid collection, then for an invalid event; succeeds exactly when all three hold |
| KeenClient.EventPropertyPrecedence | android/virometricsclient/src/main/java/com/viro/metrics/java/ViroKeenClient.java:1100-1128 | outside "keen", the event's own properties win over the dynamic globals, which win over the static globals, and nothing else appears |
| KeenClient.KeenPropertyPrecedence | android/virometricsclient/src/main/java/com/viro/metrics/java/ViroKeenClient.java:1100-1125 | inside "keen", per-event properties win over dynamic then static globals, and the timestamp is the current time only when none supplies one |
| KeenClient.AttemptPassKeepsOthers | android/virometricsclient/src/main/java/com/viro/metrics/java/ViroKeenClient.java:1309-1334 | a pass leaves alone the counts of hash codes none of its handles has |
| KeenClient.AttemptPassDropsOwn | android/virometricsclient/src/main/java/com/viro/metrics/java/ViroKeenClient.java:1309-1334 | a pass drops only its own handles |
| KeenClient.AttemptPassSent | android/virometricsclient/src/main/java/com/viro/metrics/java/ViroKeenClient.java:1309-1334 | with distinct hash codes, the handles sent are, in order, those with at least one attempt left, a missing count meaning one |
| KeenClient.AttemptPassHandle | android/virometricsclient/src/main/java/com/viro/metrics/java/ViroKeenClient.java:1309-1334 | with distinct hash codes, a handle with attempts left has its count reduced by one and stays; otherwise it is removed from the store and its count deleted |
| KeenClient.AttemptsRunOut | android/virometricsclient/src/main/java/com/viro/metrics/java/ViroKeenClient.java:1309-1334 | a handle with n attempts left is sent and kept while n is positive, each pass taking one; at zero the next pass drops it |
| KeenClient.ToRemove | android/virometricsclient/src/main/java/com/viro/metrics/java/ViroKeenClient.java:1497-1533 | only handles of the collection are removed |
| KeenClient.RemovalIff | android/virometricsclient/src/main/java/com/viro/metrics/java/ViroKeenClient.java:1499-1533 | with distinct handles, the handle at index i is removed exactly when the result at index i is a success or an invalid-event error |
| KeenClient.ToRemoveBelow | android/virometricsclient/src/main/java/com/viro/metrics/java/ViroKeenClient.java:1523-1533 | only handles at indices below the number of results are removed |
| KeenClient.RunAttemptPass | android/virometricsclient/src/main/java/com/viro/metrics/java/ViroKeenClient.java:1309-1334 | the attempt-counting loop computes the pass's sent handles, counts and removals |
| KeenClient.EventStore.CountAttempts | android/virometricsclient/src/main/java/com/viro/metrics/java/ViroKeenClient.java:1296-1341 | the attempt pass over one collection updates its counts and removes the exhausted handles from the store |
| KeenClient.EventStore.BuildEventMap | android/virometricsclient/src/main/java/com/viro/metrics/java/ViroKeenClient.java:1280-1353 | one entry per collection with handles; without attempt counting every handle is sent and nothing changes; with it, each collection gets its attempt pass |
| KeenClient.EventStore.RemoveResults | android/virometricsclient/src/main/java/com/viro/metrics/java/ViroKeenClient.java:1495-1534 | succeeds exactly when no removable result lacks its handle, and then exactly the removable results' handles are removed; the store only shrinks |
| KeenClient.EventStore.HandleAddEventsResponse | android/virometricsclient/src/main/java/com/viro/metrics/java/ViroKeenClient.java:1478-1536 | succeeds exactly when no collection faults, and then exactly the handles the response removes are gone; the store only shrinks |
| KeenClient.ToRemoveMonotone | android/virometricsclient/src/main/java/com/viro/metrics/java/ViroKeenClient.java:1497-1534 | more results never remove fewer handles |
| MaterialSubstrate.ConstantShader | ViroRenderer/VROMaterialSubstrateOpenGL.cpp:61-93 | constant lighting uses the constant vertex shader and picks the colour, 2D-texture or cube fragment shader exactly by the kind of diffuse contents, never with shininess |
| MaterialSubstrate.LambertNamed | ViroRenderer/VROMaterialSubstrateOpenGL.cpp:95-138 | the four Lambert fragment shader names follow the colour/texture and reflective naming scheme |
| MaterialSubstrate.SpecularNamed | ViroRenderer/VROMaterialSubstrateOpenGL.cpp:140-262 | the Phong and Blinn fragment shader names are the prefix plus the same colour/texture and reflective suffixes |
| MaterialSubstrate.LambertShader | ViroRenderer/VROMaterialSubstrateOpenGL.cpp:95-138 | Lambert lighting binds the diffuse texture exactly when the diffuse contents are not a fixed colour and the reflective sampler exactly when the reflective contents are a cube map |
| MaterialSubstrate.SpecularShader | ViroRenderer/VROMaterialSubstrateOpenGL.cpp:140-262 | without a 2D specular texture Phong and Blinn fall back to the Lambert choice; with one they add the specular sampler and the shininess uniform |
| MaterialSubstrate.ChooseShader | ViroRenderer/VROMaterialSubstrateOpenGL.cpp:24-55 | the constructor chooses no program exactly for physically based materials |
| MaterialSubstrate.ChoicePaired | ViroRenderer/VROMaterialSubstrateOpenGL.cpp:24-55 | for every lighting model the bound textures and the sampler names grow in step, each texture matched to its sampler |
| MaterialSubstrate.LambertPaired | ViroRenderer/VROMaterialSubstrateOpenGL.cpp:95-138 | the Lambert textures and samplers are paired one to one |
| MaterialSubstrate.SpecularPaired | ViroRenderer/VROMaterialSubstrateOpenGL.cpp:140-262 | the Phong and Blinn textures and samplers are paired one to one |
| MaterialSubstrate.SpecularFallback | ViroRenderer/VROMaterialSubstrateOpenGL.cpp:140-262 | a Phong or Blinn material without a 2D specular map gets the same program as its Lambert twin, and shininess is used exactly when the specular map is present |
| MaterialSubstrate.ProgramPool.constructor | ViroRenderer/VROMaterialSubstrateOpenGL.cpp:381-399 | the shader pool starts empty and keyed consistently |
| MaterialSubstrate.ProgramPool.GetPooledShader | ViroRenderer/VROMaterialSubstrateOpenGL.cpp:381-399 | the program under the vertex_fragment key is returned; an existing one is shared unchanged, otherwise a fresh unbuilt program with the given samplers is stored under the key |
| MaterialSubstrate.LightSpecs | ViroRenderer/VROMaterialSubstrateOpenGL.cpp:268-284 | each light slot registers nine uniforms |
| MaterialSubstrate.LightSlotSpecs | ViroRenderer/VROMaterialSubstrateOpenGL.cpp:268-284 | n light slots register nine uniforms each |
| MaterialSubstrate.LightSlotAt | ViroRenderer/VROMaterialSubstrateOpenGL.cpp:268-284 | slot k's uniforms occupy positions 9k to 9k+8, in slot order |
| MaterialSubstrate.StandardLayout | ViroRenderer/VROMaterialSubstrateOpenGL.cpp:264-296 | addUniforms registers the two global uniforms, the four light slots, six transforms and then the three material uniforms, in that order |
| MaterialSubstrate.LeadingUniformsNotMa | ViroRenderer/VROMaterialSubstrateOpenGL.cpp:264-296 | addUniforms registers 47 uniforms, none of the first 44 named with the material prefix, the last three being the material ones |
| MaterialSubstrate.MaterialUniformsFound | ViroRenderer/VROMaterialSubstrateOpenGL.cpp:293-295 | the diffuse colour, diffuse intensity and alpha uniforms are found at positions 44, 45 and 46 whatever follows them |
| MaterialSubstrate.RegisterUniforms | ViroRenderer/VROMaterialSubstrateOpenGL.cpp:130-137 | an unbuilt program gains the standard uniforms, plus shininess for Phong and Blinn, and the slots recorded are their positions |
| MaterialSubstrate.ReusedSlotsAgree | ViroRenderer/VROMaterialSubstrateOpenGL.cpp:130-137 | looking the uniforms up on a program built by another substrate of the same shaders yields the same slots as registering them |
| MaterialSubstrate.ShininessFoundLast | ViroRenderer/VROMaterialSubstrateOpenGL.cpp:140-200 | the shininess uniform registered after the standard ones is found at position 47 |
| MaterialSubstrate.LookUpUniforms | ViroRenderer/VROMaterialSubstrateOpenGL.cpp:298-302 | the slots of a built program are the first positions of the material uniform names |
| MaterialSubstrate.HashOf | ViroRenderer/VROMaterialSubstrateOpenGL.cpp:406-412 | the texture hash is an unsigned 32-bit value |
| MaterialSubstrate.HashIsPolynomial | ViroRenderer/VROMaterialSubstrateOpenGL.cpp:406-412 | the hash equals the base-31 polynomial of the texture ids reduced once modulo 2^32 |
| MaterialSubstrate.HashTextures | ViroRenderer/VROMaterialSubstrateOpenGL.cpp:406-412 | the loop computes the 32-bit hash of the textures |
| MaterialSubstrate.DepthSettings | ViroRenderer/VROMaterialSubstrateOpenGL.cpp:308-322 | the depth mask follows writesToDepthBuffer and the depth function is LEQUAL exactly when the material reads depth, ALWAYS otherwise |
| MaterialSubstrate.Substrate.constructor | ViroRenderer/VROMaterialSubstrateOpenGL.cpp:24-55 | the substrate takes the pooled program of its chosen shaders, registers the uniforms on an unbuilt one or looks them up on a built one; a physically based material gets no program and no textures |
| MaterialSubstrate.Substrate.TextureHash | ViroRenderer/VROMaterialSubstrateOpenGL.cpp:401-404 | the sort key's texture component is the 32-bit hash of the substrate's textures |
| MaterialSubstrate.LoadProgram | ViroRenderer/VROMaterialSubstrateOpenGL.cpp:95-138 | the shared load path: a built pooled program keeps its uniforms and is looked up, an unbuilt one gets the standard uniforms appended |
| MaterialSubstrate.AddUniforms | ViroRenderer/VROMaterialSubstrateOpenGL.cpp:264-296 | the program's uniforms become the old ones followed by the standard ones, nothing else on it changes |
| MaterialSubstrate.AddLightSlots | ViroRenderer/VROMaterialSubstrateOpenGL.cpp:268-284 | the loop appends the uniforms of light slots 0 to 3 in order |
| MediaRecorderJava.Notify | android/app/src/main/java/com/viro/core/ViroMediaRecorder.java:206-213 | a completion reaches the record exactly when the callback is an application delegate; the substituted empty callback records nothing |
| MediaRecorderJava.OrEmpty | android/app/src/main/java/com/viro/core/ViroMediaRecorder.java:160-165 | a null delegate is replaced by the no-op callback, any other is kept |
| MediaRecorderJava.VideoPath | android/app/src/main/java/com/viro/core/ViroMediaRecorder.java:193-194 | the recording file is the storage directory, "/", the name and ".mp4", so it always ends in ".mp4" |
| MediaRecorderJava.VideoPathNeverBlank | android/app/src/main/java/com/viro/core/ViroMediaRecorder.java:262-272 | the path startRecordingAsync passes is never blank, so the blank-name branch of prepareAndroidMediaRecorder cannot fire from there |
| MediaRecorderJava.PersistImageData | android/app/src/main/java/com/viro/core/ViroMediaRecorder.java:460-521 | one or two completions: failure with UNKNOWN for a failed GL read, WRITE_TO_FILE for a missing directory or unwritable file, a second WRITE_TO_FILE when the stream also fails to close; success, with the ".png" path, exactly when every step succeeds |
| MediaRecorderJava.MediaRecorder.constructor | android/app/src/main/java/com/viro/core/ViroMediaRecorder.java:121-129 | a new recorder is idle: not recording, no stop or destroy pending, no file, no queued screenshots, nothing reported |
| MediaRecorderJava.MediaRecorder.PrepareAndroidMediaRecorder | android/app/src/main/java/com/viro/core/ViroMediaRecorder.java:262-294 | corrected (a start() that throws is caught, see Findings): recording starts exactly when initialisation, prepare and start succeed on a non-blank path; otherwise the callback hears INITIALIZATION or WRITE_TO_FILE by the failure and the recorder stays idle |
| MediaRecorderJava.MediaRecorder.StartThrowsAsWritten | android/app/src/main/java/com/viro/core/ViroMediaRecorder.java:291-293 | as written: the recording flag is set outside the try, so a start() that throws leaves the recorder marked recording with no file name and the old delegate, which breaks the lifecycle invariant |
| MediaRecorderJava.MediaRecorder.StartRecordingAsync | android/app/src/main/java/com/viro/core/ViroMediaRecorder.java:160-204 | corrected (uses the corrected PrepareAndroidMediaRecorder): ALREADY_RUNNING while recording, NO_PERMISSIONS, WRITE_TO_FILE without a usable directory, and when the prepare step fails the error PrepareError gives for the recording path (WRITE_TO_FILE for an IOException, INITIALIZATION otherwise, start() included); recording is on afterwards exactly when it was or every check and the prepare succeeded, and then the file, the delegate and frame recording are set; the lifecycle invariant is kept |
| MediaRecorderJava.MediaRecorder.StopVideoRecordingAsyncWithError | android/app/src/main/java/com/viro/core/ViroMediaRecorder.java:312-361 | nothing for a null callback; ALREADY_STOPPED when idle or already stopping; otherwise the stop is pending with the given error and callback and frame recording is off |
| MediaRecorderJava.MediaRecorder.StopRecordingAsync | android/app/src/main/java/com/viro/core/ViroMediaRecorder.java:367-379 | NO_PERMISSIONS without permissions; otherwise a stop reporting NONE to the (possibly substituted) callback |
| MediaRecorderJava.MediaRecorder.OnRecordingFailure | android/app/src/main/java/com/viro/core/ViroMediaRecorder.java:283-290 | a recorder error or a failed EGL step stops a running recording with its error, reported to the recording's delegate; nothing changes when no recording runs or a stop is already pending |
| MediaRecorderJava.MediaRecorder.RunStopRunnable | android/app/src/main/java/com/viro/core/ViroMediaRecorder.java:326-358 | a no-op unless a stop is pending; otherwise the callback hears success or UNKNOWN with the file name, the recording state is cleared, and a pending destroy deletes the native recorder |
| MediaRecorderJava.MediaRecorder.OnNativeEnableFrameRecording | android/app/src/main/java/com/viro/core/ViroMediaRecorder.java:544-548 | once frames stop, a prepared stop runnable runs and ends a pending stop; a re-run of an old runnable changes nothing |
| MediaRecorderJava.MediaRecorder.Destroy | android/app/src/main/java/com/viro/core/ViroMediaRecorder.java:131-139 | destroy is marked pending; an idle recorder deletes its native half at once, a recording one starts a stop and deletes later |
| MediaRecorderJava.MediaRecorder.TakeScreenShotAsync | android/app/src/main/java/com/viro/core/ViroMediaRecorder.java:387-413 | NO_PERMISSIONS without permission; INITIALIZATION, with nothing queued, when building or queueing the request throws; otherwise the request, at the viewport size, joins the end of the queue and one capture is scheduled |
| MediaRecorderJava.MediaRecorder.OnNativeTakeScreenshot | android/app/src/main/java/com/viro/core/ViroMediaRecorder.java:594-607 | every queued request, in order, is read and dispatched with its GL result, and the queue is empty afterwards |
| Morpher.KeyedLast | ViroRenderer/VROMorpher.cpp:59-61 | a target's source map holds exactly the semantics that occur among its sources, each mapped to the last source carrying it |
| Morpher.IndexBySemantic | ViroRenderer/VROMorpher.cpp:33-35 | the loop keying sources by semantic builds that map |
| Morpher.PackedAt | ViroRenderer/VROMorpher.cpp:677-684 | float i*width+j of the packed data is component j of vertex i |
| Morpher.PackVertices | ViroRenderer/VROMorpher.cpp:675-684 | the packing loop fills a new array with the packed vertices |
| Morpher.VecToSource | ViroRenderer/VROMorpher.cpp:656-695 | a source is produced exactly for a non-empty vector list of a morph type, with that semantic, the morpher's element index and 3 or 4 floats per vertex |
| Morpher.AddScaled | ViroRenderer/VROMorpher.cpp:749-758 | each float gains the matching packed float times the weight, floats past the morph data unchanged |
| Morpher.WeightedAt | ViroRenderer/VROMorpher.cpp:749-758 | float i*width+j of the buffer gains component j of vertex i times the weight |
| Morpher.AddWeighted | ViroRenderer/VROMorpher.cpp:749-770 | corrected (see Findings): the weighted add loops leave the buffer equal to the old buffer plus the weighted packed morph data |
| Morpher.TangentHandednessDropped | ViroRenderer/VROMorpher.cpp:768 | as written a tangent's w never reaches the fourth float, while the corrected add gives it w times the weight |
| Morpher.ResetFloats | ViroRenderer/VROMorpher.cpp:772-787 | the first size vertices' floats become 0 and the rest are unchanged |
| Morpher.ToCPUAsWritten | ViroRenderer/VROMorpher.cpp:582-617 | a CPU target is returned as it is and the result is null exactly for a GPU target without sources |
| Morpher.ToGPUAsWritten | ViroRenderer/VROMorpher.cpp:619-654 | a GPU target is returned as it is and the result is null exactly for a CPU target without vectors |
| Morpher.NullAfterCPURoundTrip | ViroRenderer/VROMorpher.cpp:588-627 | a target whose only source is not a morph type converts to a CPU target with no vectors, which converts back to null |
| Morpher.ToCPU | ViroRenderer/VROMorpher.cpp:582-617 | corrected (see Findings): the CPU form holds vectors only for morph-type sources of the original and never is null |
| Morpher.ToGPU | ViroRenderer/VROMorpher.cpp:619-654 | corrected (see Findings): the GPU form of a CPU target holds a source exactly for each non-empty morph-type vector list and never is null |
| Morpher.ConversionsAgree | ViroRenderer/VROMorpher.cpp:582-654 | the corrected conversions agree with the as-written ones wherever those do not return null |
| Morpher.CPURoundTripKeys | ViroRenderer/VROMorpher.cpp:582-654 | converting a GPU target to the CPU form and back keeps exactly the morph-type kinds with data |
| Morpher.ConvertAll | ViroRenderer/VROMorpher.cpp:70-117 | corrected (uses Morpher.ToCPU and Morpher.ToGPU, see Findings): the conversion loops keep the target names and convert every target to the requested form |
| Morpher.MorphSemanticFor | ViroRenderer/VROMorpher.cpp:698-716 | slot i has the morph semantic of slot i for i in 0 to 6 and any other index aborts |
| Morpher.MorphMaskFor | ViroRenderer/VROMorpher.cpp:718-736 | slot i has the mask bit of slot i for i in 0 to 6 and any other index aborts |
| Morpher.SlotMapsInjective | ViroRenderer/VROMorpher.cpp:698-736 | distinct slots get distinct semantics and mask bits |
| Morpher.Costs | ViroRenderer/VROMorpher.cpp:126-132 | a target's attribute count is its vector kinds on the CPU and its sources on the GPU |
| Morpher.Select | ViroRenderer/VROMorpher.cpp:149-166 | the greedy walk chooses only names it was given |
| Morpher.SelectBudget | ViroRenderer/VROMorpher.cpp:149-166 | the chosen targets never need more than the seven slots |
| Morpher.SelectTakesAllThatFit | ViroRenderer/VROMorpher.cpp:149-166 | when all attributes fit, every target that needs a slot is chosen |
| Morpher.SelectMaximal | ViroRenderer/VROMorpher.cpp:149-166 | a target left out would not have fitted beside the chosen ones, or all seven slots are used |
| Morpher.SelectDistinct | ViroRenderer/VROMorpher.cpp:149-166 | no target is chosen twice |
| Morpher.SortByWeight | ViroRenderer/VROMorpher.cpp:141-147 | the sort keeps exactly the names it was given, with their multiplicities |
| Morpher.SortByWeightSorted | ViroRenderer/VROMorpher.cpp:141-147 | the sort is a permutation ordered by weight |
| Morpher.HeaviestChosen | ViroRenderer/VROMorpher.cpp:140-166 | corrected (see Findings): with the descending order the heaviest target comes first and is chosen whenever it fits the slots at all |
| Morpher.AscendingSortSkipsHeaviest | ViroRenderer/VROMorpher.cpp:141-166 | with the ascending order as written two four-attribute targets of weights 0 and 1 yield only the lighter one |
| Morpher.Deactivate | ViroRenderer/VROMorpher.cpp:126-132 | the first loop marks every target inactive, lists every name once and counts all attributes |
| Morpher.SelectTargets | ViroRenderer/VROMorpher.cpp:149-166 | the selection loop chooses what the greedy walk chooses |
| Morpher.RelabelTarget | ViroRenderer/VROMorpher.cpp:182-207 | the target's sources take slots first .. next-1, one source per slot and every slot held; each of those slots gets a weight uniform reading that target, and earlier slots are kept |
| Morpher.AssignSlots | ViroRenderer/VROMorpher.cpp:182-208 | the chosen targets' sources take consecutive morph slots in the order visited, one source per slot, and slot j's weight uniform reads the target whose source holds slot j |
| Morpher.SumCostPermutation | ViroRenderer/VROMorpher.cpp:126-132 | the attribute count of a list of targets does not depend on its order |
| Morpher.DeactivatedFit | ViroRenderer/VROMorpher.cpp:134-138 | with no attributes at all every target is inactive, which fits the slots |
| Morpher.MarkedFit | ViroRenderer/VROMorpher.cpp:149-166 | marking a selection whose attributes fit keeps the active targets within the slots |
| Morpher.RelabelKeepsFit | ViroRenderer/VROMorpher.cpp:182-207 | relabelling the active targets' sources keeps the fit |
| Morpher.SelectionFits | ViroRenderer/VROMorpher.cpp:140-166 | over any ordering the selection picks distinct known targets whose attributes fit the seven slots |
| Morpher.AssignReady | ViroRenderer/VROMorpher.cpp:182-208 | the chosen targets in any visiting order are distinct, active, on the GPU and fit the slots |
| Morpher.SlotsAssigned | ViroRenderer/VROMorpher.cpp:119-208 | after slotting, the targets are the old ones with the chosen ones active, within the slots and carrying slot semantics |
| Morpher.SlotsConfigured | ViroRenderer/VROMorpher.cpp:182-207 | relabelling keeps a configuration's targets and active flags |
| Morpher.SlotsInRange | ViroRenderer/VROMorpher.cpp:182-207 | once every active target is relabelled every active source carries a morph slot |
| Morpher.Remove | ViroRenderer/VROMorpher.cpp:241-242 | removing the modifier from the material leaves every other modifier and no occurrence of it |
| Morpher.HybridSlots | ViroRenderer/VROMorpher.cpp:270-279 | corrected hybrid mixing: position, normal and tangent each get their own mix exactly when some target morphs them |
| Morpher.HybridNormalsDropped | ViroRenderer/VROMorpher.cpp:270-279 | as written a target morphing positions and normals never gets the normal mix, while the corrected mixing adds it |
| Morpher.ScanVecs | ViroRenderer/VROMorpher.cpp:253-263 | the scan reports each vector kind exactly when some target has it |
| Morpher.Kept | ViroRenderer/VROMorpher.cpp:315-327 | remove_if then erase keeps, in order, exactly the sources not replaced for this element |
| Morpher.AppendActiveSources | ViroRenderer/VROMorpher.cpp:329-346 | the GPU update appends exactly the sources of the active GPU targets after the kept ones |
| Morpher.AppendSources | ViroRenderer/VROMorpher.cpp:343-345 | one target's sources are appended after what was there |
| Morpher.Blend | ViroRenderer/VROMorpher.cpp:404-429 | a blended buffer keeps the length of the base buffer |
| Morpher.BlendAt | ViroRenderer/VROMorpher.cpp:404-429 | corrected (uses Morpher.AddWeighted, which keeps the tangent w, see Findings): float m of a blended buffer is the base value plus every contributing target's weighted share |
| Morpher.BlendOrderFree | ViroRenderer/VROMorpher.cpp:404-429 | the blend does not depend on the order the map visits the targets in |
| Morpher.SkipHarmless | ViroRenderer/VROMorpher.cpp:405-408 | skipping a weight-0 target in CPU mode gives the same buffer as adding it |
| Morpher.BaseBuffer | ViroRenderer/VROMorpher.cpp:391-398 | a zeroed buffer plus the base data at weight 1 is the base data |
| Morpher.BaseFloats | ViroRenderer/VROMorpher.cpp:388-398 | corrected (uses Morpher.AddWeighted, which keeps the tangent w, see Findings): each kind's buffer starts as the base data |
| Morpher.AddIfPresent | ViroRenderer/VROMorpher.cpp:414-427 | corrected (uses Morpher.AddWeighted, which keeps the tangent w, see Findings): a kind's buffer gains the target's weighted vectors exactly when it has some of that kind |
| Morpher.BlendTarget | ViroRenderer/VROMorpher.cpp:405-428 | corrected (uses Morpher.AddWeighted, which keeps the tangent w, see Findings): one target is skipped at weight 0 in CPU mode; otherwise each of its non-empty kinds is added to its buffer |
| Morpher.BlendNext | ViroRenderer/VROMorpher.cpp:404-429 | corrected (uses Morpher.AddWeighted, which keeps the tangent w, see Findings): one iteration extends the blend state by one target |
| Morpher.BlendBuffers | ViroRenderer/VROMorpher.cpp:404-429 | corrected (uses Morpher.AddWeighted, which keeps the tangent w, see Findings): the loop visits every target once and leaves the three buffers blended and the flags set |
| Morpher.EmittedOrderFree | ViroRenderer/VROMorpher.cpp:381-485 | the sources a pass emits do not depend on the order the targets were visited in |
| Morpher.Touched | ViroRenderer/VROMorpher.cpp:383-385 | looking a kind up inserts an empty vector list for a missing kind and changes no data |
| Morpher.TouchedAll | ViroRenderer/VROMorpher.cpp:410-412 | a pass keeps the target names |
| Morpher.SecondPassAgrees | ViroRenderer/VROMorpher.cpp:372-374 | the hybrid end-weight pass emits the same after the start-weight pass's lookups |
| Morpher.EmittedTouched | ViroRenderer/VROMorpher.cpp:370-375 | the lookups one pass makes do not change what a later pass emits |
| Morpher.PutConverted | ViroRenderer/VROMorpher.cpp:66-67 | converting after storing a target under its name converts it and every other old target |
| Morpher.InstalledReplaces | ViroRenderer/VROMorpher.cpp:239-246 | after installation the previous modifier has left the material, the new one is on it and the others stay |
| Morpher.NewTarget | ViroRenderer/VROMorpher.cpp:58-64 | a new target is a GPU target, inactive, without vectors, with exactly the semantics of its sources |
| Morpher.MakeTarget | ViroRenderer/VROMorpher.cpp:58-64 | addTarget's loop builds that target |
| Morpher.ConversionDropsWeights | ViroRenderer/VROMorpher.cpp:592-616 | a GPU target converted to the CPU form starts at weight 0, so the CPU pass skips it |
| Morpher.Reweighted | ViroRenderer/VROMorpher.cpp:505-524 | a non-animated weight change sets the start weight, except in hybrid mode where the old end weight becomes the start and the new weight the end |
| Morpher.ReweightKeepsFit | ViroRenderer/VROMorpher.cpp:505-524 | changing a weight keeps the active targets within the slots |
| Morpher.ReweightValid | ViroRenderer/VROMorpher.cpp:505-524 | changing a weight keeps the targets valid for the compute location |
| Morpher.SlotsOneToOne | ViroRenderer/VROMorpher.cpp:182-207 | no morph slot is shared: two sources of active targets with the same semantic are the same source of the same target |
| Morpher.PlanGPU | ViroRenderer/VROMorpher.cpp:119-208 | corrected (uses Morpher.ChooseAndSlot, which sorts by descending weight, see Findings): configureShadersGPU deactivates all, chooses the targets, slots them and builds a modifier exactly when a modifier is installed; the modifier's slots are held one to one by the active targets' sources, each slot's weight uniform reading the target that holds it |
| Morpher.ChooseAndSlot | ViroRenderer/VROMorpher.cpp:140-208 | corrected (uses the descending weight sort, see Findings): the chosen targets are the greedy selection in map order when all fit and by descending weight otherwise; the modifier's slots are held one to one by the active targets' sources, each slot's weight uniform reading the target that holds it |
| Morpher.EmitKind | ViroRenderer/VROMorpher.cpp:432-472 | one kind's emitted source is built from its blended buffer and flag |
| Morpher.EmitAll | ViroRenderer/VROMorpher.cpp:432-472 | a pass emits position, normal and tangent sources in that order |
| Morpher.Morpher.constructor | ViroRenderer/VROMorpher.cpp:24-40 | a new morpher is on the GPU, needs an update, has no targets or modifier, and its base target holds the base sources at weight 1 |
| Morpher.Morpher.Install | ViroRenderer/VROMorpher.cpp:239-246 | the new modifier replaces the morpher's previous one on the material |
| Morpher.Morpher.ConfigureShadersHybrid | ViroRenderer/VROMorpher.cpp:249-303 | corrected (uses Morpher.HybridSlots, see Findings): the hybrid modifier mixes each kind some target morphs and replaces the previous modifier |
| Morpher.Morpher.ConfigureShadersGPU | ViroRenderer/VROMorpher.cpp:119-247 | corrected (uses Morpher.ChooseAndSlot, which sorts by descending weight, see Findings): the planned targets replace the old ones, the active ones fit the slots, and the plan's modifier replaces the morpher's when there is one; the modifier's slots are held one to one by the active targets' sources, each slot's weight uniform reading the target that holds it |
| Morpher.Morpher.ConfigureMorphTargets | ViroRenderer/VROMorpher.cpp:70-117 | corrected (uses Morpher.ToCPU, Morpher.ToGPU and the corrected shader configuration, Morpher.ChooseAndSlot and Morpher.HybridSlots, see Findings): base and targets are converted to the location's form, an update is due, and the location's shaders are configured |
| Morpher.Morpher.ConvertToCPU | ViroRenderer/VROMorpher.cpp:72-98 | corrected (uses Morpher.ToCPU, Morpher.ToGPU and the corrected shader configuration, Morpher.ChooseAndSlot and Morpher.HybridSlots, see Findings): base and every target are in CPU form, an update is due and nothing else changes |
| Morpher.Morpher.ConvertToGPU | ViroRenderer/VROMorpher.cpp:103-111 | corrected (uses Morpher.ToCPU, Morpher.ToGPU and the corrected shader configuration, Morpher.ChooseAndSlot and Morpher.HybridSlots, see Findings): base and every target are in GPU form, an update is due and nothing else changes |
| Morpher.Morpher.SetComputeLocation | ViroRenderer/VROMorpher.cpp:571-580 | corrected (uses Morpher.ToCPU, Morpher.ToGPU and the corrected shader configuration, Morpher.ChooseAndSlot and Morpher.HybridSlots, see Findings): the GPU is refused exactly when there are more than seven targets; otherwise the location changes and everything is reconverted |
| Morpher.Morpher.AddTarget | ViroRenderer/VROMorpher.cpp:46-68 | corrected (uses Morpher.ToCPU, Morpher.ToGPU and the corrected shader configuration, Morpher.ChooseAndSlot and Morpher.HybridSlots, see Findings): an empty source list changes nothing; otherwise a full GPU morpher falls back to the CPU and the new target joins the converted targets |
| Morpher.Morpher.PutTarget | ViroRenderer/VROMorpher.cpp:66-67 | corrected (uses Morpher.ToCPU, Morpher.ToGPU and the corrected shader configuration, Morpher.ChooseAndSlot and Morpher.HybridSlots, see Findings): the target is stored under its name and all targets are reconfigured |
| Morpher.Morpher.FallBackIfFull | ViroRenderer/VROMorpher.cpp:52-56 | corrected (uses Morpher.ToCPU, Morpher.ToGPU and the corrected shader configuration, Morpher.ChooseAndSlot and Morpher.HybridSlots, see Findings): a GPU morpher holding seven or more targets switches to the CPU and otherwise nothing changes |
| Morpher.Morpher.ProcessMorphTargets | ViroRenderer/VROMorpher.cpp:381-485 | corrected (uses Morpher.AddWeighted, which keeps the tangent w, see Findings): one pass appends the emitted blended sources and only touches the kinds it looked up |
| Morpher.Morpher.Update | ViroRenderer/VROMorpher.cpp:305-379 | corrected (uses Morpher.AddWeighted, which keeps the tangent w, see Findings): nothing happens unless an update is due and there are targets; otherwise the GPU replaces the morph sources by the active ones and the CPU and hybrid modes replace the element's sources by the blended ones |
| Morpher.Morpher.UpdateCPU | ViroRenderer/VROMorpher.cpp:370-371 | corrected (uses Morpher.AddWeighted, which keeps the tangent w, see Findings): the CPU update emits one start-weight pass |
| Morpher.Morpher.UpdateHybrid | ViroRenderer/VROMorpher.cpp:372-375 | corrected (uses Morpher.AddWeighted, which keeps the tangent w, see Findings): the hybrid update emits the start-weight pass followed by the end-weight morph pass |
| Morpher.Morpher.SecondPass | ViroRenderer/VROMorpher.cpp:374 | corrected (uses Morpher.AddWeighted, which keeps the tangent w, see Findings): the end-weight pass appends its morph sources after the first pass's output |
| Morpher.Morpher.SetWeightForTarget | ViroRenderer/VROMorpher.cpp:495-524 | unknown keys change nothing; otherwise the target is reweighted, an update is due except on the GPU, and hybrid mode sets the mix to 1 |
| Morpher.Morpher.GetMorphTargetKeys | ViroRenderer/VROMorpher.cpp:487-493 | the keys are exactly the target names |
| Morpher.Contribution4AsWritten | ViroRenderer/VROMorpher.cpp:768 | as written: four floats, the fourth a copy of the third (z, not the handedness w) |
| Morpher.HybridSlotsAsWritten | ViroRenderer/VROMorpher.cpp:270-279 | as written: a subset of the intended mixes, holding exactly one mix when any attribute is morphed |
| SceneNode.DragTypeValueFromStringIff | android/app/src/main/java/com/viro/core/Node.java:74-132 | valueFromString yields a drag type exactly when the name is that type's string value up to case |
| SceneNode.TransformBehaviorValueFromStringIff | android/app/src/main/java/com/viro/core/Node.java:138-182 | valueFromString yields a transform behaviour exactly when the name is that behaviour's string value up to case |
| SceneNode.RemoveFirst | android/app/src/main/java/com/viro/core/Node.java:361-368 | List.remove drops the first occurrence only, keeps the rest in order, and leaves a list without the element unchanged |
| SceneNode.EventDelegate.constructor | android/app/src/main/java/com/viro/core/Node.java:264-275 | a new event delegate has every event disabled |
| SceneNode.EventDelegate.SetEventEnabled | android/app/src/main/java/com/viro/core/Node.java:1243-1251 | the one action is enabled or disabled as asked; all others keep their state |
| SceneNode.Node.constructor | android/app/src/main/java/com/viro/core/Node.java:240-275 | a new node has a fresh event delegate with nothing enabled, no children, no parent, no geometry or emitters, no listeners and no transform delegate |
| SceneNode.Node.AddChildNode | android/app/src/main/java/com/viro/core/Node.java:341-345 | the child is appended to the children and names this node as its parent |
| SceneNode.Node.RemoveFromParentNode | android/app/src/main/java/com/viro/core/Node.java:361-368 | the node has no parent afterwards, and its former parent's children lose their first occurrence of it |
| SceneNode.Node.RemoveAllChildNodes | android/app/src/main/java/com/viro/core/Node.java:373-381 | every former child has no parent; what stays in the list is exactly the repeats left over once each child's first occurrence has been removed |
| SceneNode.RepeatsEmptyIff | android/app/src/main/java/com/viro/core/Node.java:373-381 | removing all children empties the list exactly when no child was added twice |
| SceneNode.Node.SetGeometry | android/app/src/main/java/com/viro/core/Node.java:886-895 | the geometry takes the argument; a non-null geometry detaches the particle emitter, a null one leaves it |
| SceneNode.Node.RemoveParticleEmitter | android/app/src/main/java/com/viro/core/Node.java:988-991 | the particle emitter slot is empty |
| SceneNode.Node.RemoveFixedParticleEmitter | android/app/src/main/java/com/viro/core/Node.java:996-999 | the fixed particle emitter slot is empty |
| SceneNode.Node.SetFixedParticleEmitter | android/app/src/main/java/com/viro/core/Node.java:926-940 | the fixed slot takes the argument; a non-null emitter detaches the other emitter, so at most one is attached |
| SceneNode.Node.SetParticleEmitter | android/app/src/main/java/com/viro/core/Node.java:951-965 | the emitter slot takes the argument; a non-null emitter detaches the fixed one, so at most one is attached |
| SceneNode.Node.SetListener | android/app/src/main/java/com/viro/core/Node.java:1243-1460 | the listener for the event is stored or removed, and the event is enabled on the delegate exactly when the listener is non-null; other events are untouched |
| SceneNode.Node.SetTransformListener | android/app/src/main/java/com/viro/core/Node.java:1773-1778 | the listener is stored; a native transform delegate is created only when none exists |
| SceneNode.Node.RemoveTransformListener | android/app/src/main/java/com/viro/core/Node.java:1783-1789 | afterwards no transform delegate exists; the listener is cleared only when a delegate was removed |
| SceneNode.Node.GetParentPortalScene | android/app/src/main/java/com/viro/core/Node.java:398-408 | the answer is the nearest portal scene among the ancestors, or null when none is one |
| SceneNode.FirstPortal | android/app/src/main/java/com/viro/core/Node.java:398-408 | the portal found is an ancestor that is a portal scene; none is found only when no ancestor is one |
| SceneNode.FirstPortalIsNearest | android/app/src/main/java/com/viro/core/Node.java:398-408 | when the k-th ancestor is the first portal scene, it is the one returned |
| SceneRendererOVR.MessageInit | android/app/src/main/cpp/VROSceneRendererOVR.cpp:1960-1965 | a new message carries the given id and wait mode and all eight parameters zero |
| SceneRendererOVR.ToInt32 | android/app/src/main/cpp/VROSceneRendererOVR.cpp:1970 | the cast to int keeps the value modulo 2^32 and is the identity on values in the 32-bit range |
| SceneRendererOVR.SetIntegerParm | android/app/src/main/cpp/VROSceneRendererOVR.cpp:1969 | storing an integer parameter changes only its slot |
| SceneRendererOVR.IntegerParmRoundTrip | android/app/src/main/cpp/VROSceneRendererOVR.cpp:1969-1970 | an integer parameter reads back as it was stored and storing it leaves the other slots' readings alone |
| SceneRendererOVR.Slot | android/app/src/main/cpp/VROSceneRendererOVR.cpp:2034 | a counter masked with MAX_MESSAGES - 1 is a valid ring slot |
| SceneRendererOVR.SlotsDistinct | android/app/src/main/cpp/VROSceneRendererOVR.cpp:2034 | counters less than a full ring apart never share a slot |
| SceneRendererOVR.MessageQueue.constructor | android/app/src/main/cpp/VROSceneRendererOVR.cpp:1991-2009 | a new queue is empty and disabled with no wait pending and every flag clear |
| SceneRendererOVR.MessageQueue.Enable | android/app/src/main/cpp/VROSceneRendererOVR.cpp:2019-2022 | only the enabled flag changes |
| SceneRendererOVR.MessageQueue.Post | android/app/src/main/cpp/VROSceneRendererOVR.cpp:2024-2056 | a disabled queue drops the message; otherwise it is stored at the tail slot, the tail advances, the message is pending last and posted is set |
| SceneRendererOVR.MessageQueue.GetNextMessage | android/app/src/main/cpp/VROSceneRendererOVR.cpp:2080-2111 | a pending WAIT_PROCESSED handshake completes first; an empty queue gives nothing; otherwise the oldest message leaves the queue and sets received or starts a processed handshake as its wait mode says |
| SceneRendererOVR.PressBack | android/app/src/main/cpp/VROSceneRendererOVR.cpp:1883-1895 | a back DOWN leaves the button down, restarts the press timer on a fresh press, and a fresh press within the double-tap time becomes a pending double tap |
| SceneRendererOVR.ReleaseBack | android/app/src/main/cpp/VROSceneRendererOVR.cpp:1896-1911 | a back UP leaves the button up; a release from rest within the short-press time becomes a pending short press and the release ending a double tap returns to rest |
| SceneRendererOVR.BackAction | android/app/src/main/cpp/VROSceneRendererOVR.cpp:1856-1876 | a pending double tap turns into skipping its release; the confirm-quit menu is shown exactly for a pending short press whose button is up and whose double-tap window has passed, which returns to rest |
| SceneRendererOVR.StepKeepsQuitBudget | android/app/src/main/cpp/VROSceneRendererOVR.cpp:1856-1915 | only a release creates a pending short press and showing the menu consumes it |
| SceneRendererOVR.QuitMenuAtMostOncePerRelease | android/app/src/main/cpp/VROSceneRendererOVR.cpp:1856-1915 | over any sequence of events the confirm-quit menu is shown no more often than the button is released, plus one already pending |
| SceneRendererOVR.ShortPressShowsQuitMenu | android/app/src/main/cpp/VROSceneRendererOVR.cpp:1856-1915 | a short press from rest shows the confirm-quit menu exactly once and returns to rest |
| SceneRendererOVR.DoubleTapSkipsQuitMenu | android/app/src/main/cpp/VROSceneRendererOVR.cpp:1856-1915 | a double tap from rest never shows the confirm-quit menu and its final release returns to rest |
| SceneRendererOVR.App.constructor | android/app/src/main/cpp/VROSceneRendererOVR.cpp:1766-1789 | a cleared app is not resumed, has no window, is not in VR mode and its back button is at rest |
| SceneRendererOVR.App.HandleVrModeChanges | android/app/src/main/cpp/VROSceneRendererOVR.cpp:1805-1854 | a resumed app with a window enters VR mode and drops the window when entry fails; any other app leaves VR mode; afterwards VR mode implies resumed with a window |
| SceneRendererOVR.App.BackButtonAction | android/app/src/main/cpp/VROSceneRendererOVR.cpp:1856-1876 | the back button and the menu decision follow the per-frame action, the rest of the app is unchanged |
| SceneRendererOVR.App.HandleKeyEvent | android/app/src/main/cpp/VROSceneRendererOVR.cpp:1878-1915 | the back key is handled and updates the button on DOWN and UP; any other key returns 0 and changes nothing |
| SceneRendererOVR.Advanced | android/app/src/main/cpp/VROSceneRendererOVR.cpp:903-907 | one advance moves to the next swap-chain texture and wraps from the last to 0 |
| SceneRendererOVR.AdvanceMod | android/app/src/main/cpp/VROSceneRendererOVR.cpp:903-907 | an advance from a remainder is the remainder of the successor |
| SceneRendererOVR.AdvanceCycle | android/app/src/main/cpp/VROSceneRendererOVR.cpp:903-907 | n advances move n places round the ring and a full cycle returns to the same texture |
| SceneRendererOVR.Framebuffer.constructor | android/app/src/main/cpp/VROSceneRendererOVR.cpp:734-745 | a cleared framebuffer has swap-chain length and index 0 |
| SceneRendererOVR.Framebuffer.Advance | android/app/src/main/cpp/VROSceneRendererOVR.cpp:903-907 | the index advances round the swap chain and stays within it |
| ParticleEmitter.Reset | ViroRenderer/VROParticleEmitter.cpp:395-431 | a reset particle starts a new life at now with the given life period and the standard zombie period, no longer a zombie |
| ParticleEmitter.Kill | ViroRenderer/VROParticleEmitter.cpp:372-375 | a dying particle becomes a zombie killed at now, keeping its spawn time and life period |
| ParticleEmitter.KillAll | ViroRenderer/VROParticleEmitter.cpp:366-382 | every dying particle is turned into a zombie, one for one |
| ParticleEmitter.CullPartition | ViroRenderer/VROParticleEmitter.cpp:366-393 | a cull pass splits the list into kept and removed particles with nothing lost or added |
| ParticleEmitter.CullSound | ViroRenderer/VROParticleEmitter.cpp:366-393 | kept particles are not culled and removed ones are |
| ParticleEmitter.KeptShrinks | ViroRenderer/VROParticleEmitter.cpp:366-393 | a cull pass never adds particles |
| ParticleEmitter.Recycles | ViroRenderer/VROParticleEmitter.cpp:339-364 | spawnParticle recycles at most the zombies there are, and one even for a request of zero or less |
| ParticleEmitter.Revived | ViroRenderer/VROParticleEmitter.cpp:339-364 | each revived zombie yields one particle |
| ParticleEmitter.SpawnedCount | ViroRenderer/VROParticleEmitter.cpp:339-364 | a positive request adds exactly that many particles, each starting life at now and none a zombie; a non-positive one still revives one zombie if there is one |
| ParticleEmitter.SpawnInto | ViroRenderer/VROParticleEmitter.cpp:339-364 | the spawn loops append the revived zombies and then new particles, and drop the recycled zombies from the front |
| ParticleEmitter.KillDying | ViroRenderer/VROParticleEmitter.cpp:366-382 | the live list keeps exactly the particles not yet dead, and the dead ones join the zombies in order |
| ParticleEmitter.DropExpired | ViroRenderer/VROParticleEmitter.cpp:384-393 | exactly the zombies whose zombie period has run out are erased |
| ParticleEmitter.FireAll | ViroRenderer/VROParticleEmitter.cpp:300-337 | a pass over the burst schedule never lengthens it |
| ParticleEmitter.FireAllKeepsLive | ViroRenderer/VROParticleEmitter.cpp:325-330 | every burst left in the schedule has a cycle left |
| ParticleEmitter.FireAllIdle | ViroRenderer/VROParticleEmitter.cpp:300-337 | a schedule with nothing due and every cycle still to come emits nothing and stays as it is |
| ParticleEmitter.FireAllCountNonNegative | ViroRenderer/VROParticleEmitter.cpp:300-337 | with non-negative draws the burst count is non-negative |
| ParticleEmitter.FireUsesCycle | ViroRenderer/VROParticleEmitter.cpp:316-322 | each due burst uses exactly one cycle per pass and nothing else does |
| ParticleEmitter.FireBursts | ViroRenderer/VROParticleEmitter.cpp:300-337 | the burst loop computes the count and the remaining schedule of a pass |
| ParticleEmitter.CapExceededAsWritten | ViroRenderer/VROParticleEmitter.cpp:235-236 | as written 480 live particles, 20 zombies and a request of 40 pass the cap of 500, which the corrected guard refuses |
| ParticleEmitter.SpawnWithinCap | ViroRenderer/VROParticleEmitter.cpp:235-240 | corrected (see Findings): with the corrected guard a positive request never takes the live particles past the maximum |
| ParticleEmitter.SpawnStep | ViroRenderer/VROParticleEmitter.cpp:228-241 | corrected (uses ParticleEmitter.SpawnAllowed, see Findings): updateParticleSpawn advances the bursts, adds up the three counts and spawns them unless zero or over the cap |
| ParticleEmitter.UpdatePool | ViroRenderer/VROParticleEmitter.cpp:143-178 | corrected (uses ParticleEmitter.SpawnAllowed, see Findings): updateParticles kills the dead, spawns while running and drops expired zombies |
| ParticleEmitter.SpawnKeepsCap | ViroRenderer/VROParticleEmitter.cpp:228-241 | corrected (uses ParticleEmitter.SpawnAllowed, see Findings): with non-negative rates and draws a spawn keeps the live particles within the maximum |
| ParticleEmitter.PoolKeepsCap | ViroRenderer/VROParticleEmitter.cpp:143-178 | corrected (uses ParticleEmitter.SpawnAllowed, see Findings): a whole update keeps a pool within the maximum |
| ParticleEmitter.Emitter.constructor | ViroRenderer/VROParticleEmitter.cpp:17-75 | a new emitter has the default duration, maximum, rates and lifetime, loops, does not run and holds no particles or bursts |
| ParticleEmitter.Emitter.ResetEmissionCycle | ViroRenderer/VROParticleEmitter.cpp:121-141 | the clock and distance restart from now and here, the burst schedule is restored, and the particles are cleared only when asked |
| ParticleEmitter.Emitter.UpdateEmitter | ViroRenderer/VROParticleEmitter.cpp:88-115 | the running flag follows the request, a resumed or finished looping cycle restarts, and the particles are untouched |
| ParticleEmitter.Emitter.SpawnParticle | ViroRenderer/VROParticleEmitter.cpp:339-364 | n particles are appended, recycled zombies first, and the recycled zombies leave the zombie list |
| ParticleEmitter.Emitter.UpdateParticlesToBeKilled | ViroRenderer/VROParticleEmitter.cpp:366-382 | dead particles move from the particle list to the end of the zombie list |
| ParticleEmitter.Emitter.UpdateZombieParticles | ViroRenderer/VROParticleEmitter.cpp:384-393 | expired zombies are dropped |
| ParticleEmitter.Emitter.UpdateParticleSpawn | ViroRenderer/VROParticleEmitter.cpp:228-241 | corrected (uses ParticleEmitter.SpawnAllowed, see Findings): the pool and schedule become the spawn outcome of the current counts |
| ParticleEmitter.Emitter.UpdateParticles | ViroRenderer/VROParticleEmitter.cpp:143-178 | corrected (uses ParticleEmitter.SpawnAllowed, see Findings): the pool and schedule become the outcome of one update |
| ParticleEmitter.Emitter.GetSpawnParticleBursts | ViroRenderer/VROParticleEmitter.cpp:300-337 | the count and the schedule are those of a burst pass at the current time and distance |
| ParticleEmitter.SpawnAllowedAsWritten | ViroRenderer/VROParticleEmitter.cpp:235-236 | as written: allows every spawn the intended cap allows, and agrees with it when there are no zombies |
| ParticleEmitterJava.FactorValueFromStringIff | android/app/src/main/java/com/viro/core/ParticleEmitter.java:174-207 | Factor.valueFromString yields a factor exactly when the name is its string value ("time", "distance") up to case |
| ParticleEmitterJava.BurstRow | android/app/src/main/java/com/viro/core/ParticleEmitter.java:998-1023 | one burst row holds six numbers: 1 for TIME and 0 for DISTANCE, the start, the min and max counts, the cooldown period and the cycles |
| ParticleEmitterJava.EncodeBursts | android/app/src/main/java/com/viro/core/ParticleEmitter.java:998-1023 | null for a null or empty list, otherwise one well-formed six-number row per burst, in list order |
| ParticleEmitterJava.EncodeBurstTable | android/app/src/main/java/com/viro/core/ParticleEmitter.java:998-1023 | the encoding loop builds exactly the table EncodeBursts defines |
| ParticleEmitterJava.NativeBursts | ViroRenderer/capi/ParticleEmitter_JNI.cpp:225-266 | the bursts the renderer should hold for a Java list: none for null or empty, otherwise each burst with its factor and counts |
| ParticleEmitterJava.BurstsRoundTrip | ViroRenderer/capi/ParticleEmitter_JNI.cpp:225-266 | decoding the encoded table in native code gives back exactly the Java bursts: factor, start, counts, cycles and period, in order |
| ParticleEmitterJava.AppendKeepsContiguous | android/app/src/main/java/com/viro/core/ParticleEmitter.java:386-393 | adding an interval keeps the intervals contiguous from 0 |
| ParticleEmitterJava.IntervalRows | android/app/src/main/java/com/viro/core/ParticleEmitter.java:416-426 | null without intervals, otherwise one [start, end] row per interval in the order added |
| ParticleEmitterJava.IntervalArray | android/app/src/main/java/com/viro/core/ParticleEmitter.java:416-426 | the copying loop returns exactly IntervalRows |
| ParticleEmitterJava.PointRows | android/app/src/main/java/com/viro/core/ParticleEmitter.java:431-442 | null without end values, otherwise one row per end value, in order, in the modifier kind's layout |
| ParticleEmitterJava.PointArray | android/app/src/main/java/com/viro/core/ParticleEmitter.java:431-442 | the copying loop returns exactly PointRows |
| ParticleEmitterJava.ModifierFloat.constructor | android/app/src/main/java/com/viro/core/ParticleEmitter.java:354-358 | a new float modifier uses TIME, the given initial range, and has no intervals |
| ParticleEmitterJava.ModifierFloat.SetFactor | android/app/src/main/java/com/viro/core/ParticleEmitter.java:370-372 | the factor is replaced |
| ParticleEmitterJava.ModifierFloat.AddInterval | android/app/src/main/java/com/viro/core/ParticleEmitter.java:386-393 | the new interval starts where the last ended (0 for the first) and lasts the given length; its end value is appended; intervals stay contiguous |
| ParticleEmitterJava.ModifierFloat.InitialRange | android/app/src/main/java/com/viro/core/ParticleEmitter.java:406-411 | the initial range is [[min,0,0],[max,0,0]] |
| ParticleEmitterJava.ModifierFloat.ToArgs | android/app/src/main/java/com/viro/core/ParticleEmitter.java:1331-1339 | setModifier sends the factor name, the initial range, the interval rows and the point rows of this modifier |
| ParticleEmitterJava.ModifierColor.constructor | android/app/src/main/java/com/viro/core/ParticleEmitter.java:463-467 | a new colour modifier uses TIME, the given initial colours, and has no intervals |
| ParticleEmitterJava.ModifierColor.SetFactor | android/app/src/main/java/com/viro/core/ParticleEmitter.java:479-481 | the factor is replaced |
| ParticleEmitterJava.ModifierColor.AddInterval | android/app/src/main/java/com/viro/core/ParticleEmitter.java:496-503 | as for floats, with a colour end value |
| ParticleEmitterJava.ModifierColor.ToArgs | android/app/src/main/java/com/viro/core/ParticleEmitter.java:516-553 | the colour channels go out as [red, green, blue] reals taken from the packed colour's bytes |
| ParticleEmitterJava.ModifierVector.constructor | android/app/src/main/java/com/viro/core/ParticleEmitter.java:573-577 | a new vector modifier uses TIME, the given initial vectors, and has no intervals |
| ParticleEmitterJava.ModifierVector.SetFactor | android/app/src/main/java/com/viro/core/ParticleEmitter.java:589-591 | the factor is replaced |
| ParticleEmitterJava.ModifierVector.AddInterval | android/app/src/main/java/com/viro/core/ParticleEmitter.java:605-612 | as for floats, with a vector end value |
| ParticleEmitterJava.ModifierVector.ToArgs | android/app/src/main/java/com/viro/core/ParticleEmitter.java:625-659 | vectors go out as [x, y, z] rows |
| ParticleEmitterJava.RebuildInterval | android/app/src/main/java/com/viro/core/ParticleEmitter.java:1136-1155 | re-adding each interval's length in order rebuilds that interval exactly |
| ParticleEmitterJava.RotationAsVector | android/app/src/main/java/com/viro/core/ParticleEmitter.java:1136-1155 | the rotation modifier becomes a vector modifier with the same factor and intervals and every value on the z axis |
| ParticleEmitterJava.Emitter.constructor | android/app/src/main/java/com/viro/core/ParticleEmitter.java:662-681 | the field defaults: delay 0, duration 2000, looping, not running, fixed to emitter, 10 per second, 0 per meter, lifetime 2000, 500 particles, no bursts, a point volume at the origin on its surface, ALPHA blending, bloom threshold -1 |
| ParticleEmitterJava.Emitter.Run | android/app/src/main/java/com/viro/core/ParticleEmitter.java:794-797 | the emitter is not paused afterwards |
| ParticleEmitterJava.Emitter.Pause | android/app/src/main/java/com/viro/core/ParticleEmitter.java:803-806 | the emitter is paused afterwards |
| ParticleEmitterJava.Emitter.SetEmissionRatePerSecond | android/app/src/main/java/com/viro/core/ParticleEmitter.java:874-889 | the per-second getter answers the new range, and the native emitter's per-second rate becomes that range |
| ParticleEmitterJava.Emitter.SetEmissionRatePerMeter | android/app/src/main/java/com/viro/core/ParticleEmitter.java:909-924 | corrected: the per-meter getter answers the new range, and the native emitter's per-distance rate becomes that range |
| ParticleEmitterJava.Emitter.EmissionRatePerMeterAsWritten | android/app/src/main/java/com/viro/core/ParticleEmitter.java:922-924 | as written: the per-meter getter answers the per-second range |
| ParticleEmitterJava.Emitter.SetEmissionBursts | android/app/src/main/java/com/viro/core/ParticleEmitter.java:998-1023 | the list is kept and native code ends up with exactly these bursts, in order |
| ParticleEmitterJava.Emitter.SetSpawnVolumeAsWritten | android/app/src/main/java/com/viro/core/ParticleEmitter.java:1059-1082 | as written: native code gets the shape name, parameters and surface flag, but the getters keep the old volume and flag |
| ParticleEmitterJava.Emitter.SetSpawnVolume | android/app/src/main/java/com/viro/core/ParticleEmitter.java:1059-1082 | corrected: the getters answer the new volume and flag as well |
| ParticleEmitterJava.Emitter.SetBlendMode | android/app/src/main/java/com/viro/core/ParticleEmitter.java:1282-1285 | the getter answers the new mode; native code adopts it unless its name parses to NONE |
| ParticleEmitterJava.Emitter.SetOpacityModifier | android/app/src/main/java/com/viro/core/ParticleEmitter.java:1092-1094 | the native alpha modifier becomes this modifier's arguments; the others are untouched |
| ParticleEmitterJava.Emitter.SetScaleModifier | android/app/src/main/java/com/viro/core/ParticleEmitter.java:1114-1116 | the native scale modifier becomes this modifier's arguments |
| ParticleEmitterJava.Emitter.SetColorModifier | android/app/src/main/java/com/viro/core/ParticleEmitter.java:1173-1175 | the native colour modifier becomes this modifier's arguments |
| ParticleEmitterJava.Emitter.SetVelocityModifier | android/app/src/main/java/com/viro/core/ParticleEmitter.java:1201-1203 | the native velocity modifier becomes this modifier's arguments |
| ParticleEmitterJava.Emitter.SetAccelerationModifier | android/app/src/main/java/com/viro/core/ParticleEmitter.java:1230-1232 | the native acceleration modifier becomes this modifier's arguments |
| ParticleEmitterJava.Emitter.SetRotationModifierAsWritten | android/app/src/main/java/com/viro/core/ParticleEmitter.java:1136-1155 | as written: a modifier without intervals throws before native code hears anything; otherwise native code gets the rotation on z |
| ParticleEmitterJava.Emitter.SetRotationModifier | android/app/src/main/java/com/viro/core/ParticleEmitter.java:1136-1155 | corrected: native code always gets the rotation modifier with its factor, the initial range on z, the same intervals and the end values on z |
| ParticleEmitterJava.RatePerMeterAsWrittenIsPerSecond | android/app/src/main/java/com/viro/core/ParticleEmitter.java:922-924 | with the defaults, the per-meter getter as written answers (10, 10) where the per-meter rate is (0, 0) |
| ParticleEmitterJNI.TruncateToInt | ViroRenderer/capi/ParticleEmitter_JNI.cpp:225-266 | a double-to-int conversion drops the fraction, moving toward zero, and keeps whole numbers |
| ParticleEmitterJNI.DecodeBurst | ViroRenderer/capi/ParticleEmitter_JNI.cpp:225-266 | a factor of exactly 1 is TIME and anything else DISTANCE; the counts are truncated |
| ParticleEmitterJNI.DecodeBursts | ViroRenderer/capi/ParticleEmitter_JNI.cpp:225-266 | no bursts for a null table, otherwise one burst per row, in row order |
| ParticleEmitterJNI.DecodeBurstTable | ViroRenderer/capi/ParticleEmitter_JNI.cpp:225-266 | the decoding loop builds exactly DecodeBursts |
| ParticleEmitterJNI.ParseModifierTarget | ViroRenderer/capi/ParticleEmitter_JNI.cpp:268-307 | the six modifier names (opacity for the alpha target, then scale, rotation, color, velocity, acceleration) select their target; any other name selects none |
| ParticleEmitterJNI.ModifierTargetNamesDistinct | ViroRenderer/capi/ParticleEmitter_JNI.cpp:268-307 | the six target names are distinct |
| ParticleEmitterJNI.ParseModifierTargetIff | ViroRenderer/capi/ParticleEmitter_JNI.cpp:268-307 | a name selects a target exactly when it is that target's name up to case |
| ParticleEmitterJNI.CopyParams | ViroRenderer/capi/ParticleEmitter_JNI.cpp:163-198 | the parameter copy returns the array's values in order, none for a null array |
| ParticleEmitterJNI.NativeEmitter.constructor | ViroRenderer/capi/ParticleEmitter_JNI.cpp:24-36 | a new native emitter has no bursts and no modifiers, and the renderer's initial blend mode, spawn volume and emission rates |
| ParticleEmitterJNI.NativeEmitter.SetEmissionRatePerSecond | ViroRenderer/capi/ParticleEmitter_JNI.cpp:115-123 | the emitter's per-second rate becomes the given range |
| ParticleEmitterJNI.NativeEmitter.SetEmissionRatePerMeter | ViroRenderer/capi/ParticleEmitter_JNI.cpp:125-134 | the emitter's per-distance rate becomes the given range |
| ParticleEmitterJNI.NativeEmitter.SetParticleBursts | ViroRenderer/capi/ParticleEmitter_JNI.cpp:225-266 | the emitter holds exactly the decoded bursts |
| ParticleEmitterJNI.NativeEmitter.SetParticleModifier | ViroRenderer/capi/ParticleEmitter_JNI.cpp:268-307 | the named target takes the modifier; an unknown name changes nothing |
| ParticleEmitterJNI.NativeEmitter.SetParticleBlendMode | ViroRenderer/capi/ParticleEmitter_JNI.cpp:309-330 | a name that parses to NONE changes nothing and returns false; any other mode is adopted and true is returned |
| ParticleEmitterJNI.NativeEmitter.SetSpawnVolume | ViroRenderer/capi/ParticleEmitter_JNI.cpp:163-198 | the shape parsed from the name, the parameters in order and the surface flag are stored |
| PhysicsBodyJava.RigidBodyTypeStringsDistinct | android/app/src/main/java/com/viro/core/PhysicsBody.java:30-58 | the three rigid-body types reach native code under three different names ("dynamic", "kinematic", "static") |
| PhysicsBodyJava.LastMass | android/app/src/main/java/com/viro/core/PhysicsBody.java:122-125 | the mass native code holds is the one of the last mass-carrying call, creation included |
| PhysicsBodyJava.LastUseGravity | android/app/src/main/java/com/viro/core/PhysicsBody.java:230-232 | the gravity switch native code holds is the last one sent |
| PhysicsBodyJava.PhysicsBody.CreateAsWritten | android/app/src/main/java/com/viro/core/PhysicsBody.java:74-86 | as written: native code gets the mass but the Java field keeps 0; enabled, gravity on, friction 0.5, restitution 0, no velocity, no listener |
| PhysicsBodyJava.PhysicsBody.constructor | android/app/src/main/java/com/viro/core/PhysicsBody.java:74-86 | corrected: the same defaults, and the Java mass equals the mass sent, so every getter agrees with native state |
| PhysicsBodyJava.PhysicsBody.SetShapeTo | android/app/src/main/java/com/viro/core/PhysicsBody.java:102-105 | the getter's shape becomes the new shape and native code receives its type and parameters; Java and native stay in agreement |
| PhysicsBodyJava.PhysicsBody.SetMassTo | android/app/src/main/java/com/viro/core/PhysicsBody.java:122-125 | the getter's mass becomes m, native code receives m, the gravity switch is untouched |
| PhysicsBodyJava.PhysicsBody.SetMomentOfInertia | android/app/src/main/java/com/viro/core/PhysicsBody.java:143-145 | native code receives the inertia as a 3-float array; nothing in Java changes |
| PhysicsBodyJava.PhysicsBody.SetFrictionTo | android/app/src/main/java/com/viro/core/PhysicsBody.java:158-161 | the getter's friction becomes f and native code receives f |
| PhysicsBodyJava.PhysicsBody.SetRestitutionTo | android/app/src/main/java/com/viro/core/PhysicsBody.java:188-191 | the getter's restitution becomes r and native code receives r |
| PhysicsBodyJava.PhysicsBody.SetEnabledTo | android/app/src/main/java/com/viro/core/PhysicsBody.java:208-211 | the enabled flag becomes e and native code receives e |
| PhysicsBodyJava.PhysicsBody.SetUseGravityAsWritten | android/app/src/main/java/com/viro/core/PhysicsBody.java:230-241 | as written: native code receives g but the getter keeps answering its old value |
| PhysicsBodyJava.PhysicsBody.SetUseGravityTo | android/app/src/main/java/com/viro/core/PhysicsBody.java:230-241 | corrected: the getter's switch becomes g as well; the mass native code holds is untouched |
| PhysicsBodyJava.PhysicsBody.SetVelocityTo | android/app/src/main/java/com/viro/core/PhysicsBody.java:253-269 | the getter's velocity changes only for a constant velocity; native code receives either kind with its flag |
| PhysicsBodyJava.PhysicsBody.ClearForces | android/app/src/main/java/com/viro/core/PhysicsBody.java:274-276 | one clear-force call reaches native code |
| PhysicsBodyJava.PhysicsBody.ApplyForceAt | android/app/src/main/java/com/viro/core/PhysicsBody.java:288-290 | native code receives the force and its position as arrays |
| PhysicsBodyJava.PhysicsBody.ApplyTorqueOf | android/app/src/main/java/com/viro/core/PhysicsBody.java:300-302 | native code receives the torque as an array |
| PhysicsBodyJava.PhysicsBody.ApplyImpulseAt | android/app/src/main/java/com/viro/core/PhysicsBody.java:313-315 | native code receives the impulse and its position as arrays |
| PhysicsBodyJava.PhysicsBody.ApplyTorqueImpulseOf | android/app/src/main/java/com/viro/core/PhysicsBody.java:322-324 | native code receives the torque impulse as an array |
| PhysicsBodyJava.PhysicsBody.SetCollisionListenerAsWritten | android/app/src/main/java/com/viro/core/PhysicsBody.java:359-369 | as written: a first listener creates the native delegate, null clears it, and a second non-null listener is ignored |
| PhysicsBodyJava.PhysicsBody.SetCollisionListener | android/app/src/main/java/com/viro/core/PhysicsBody.java:359-369 | corrected: the listener called afterwards is exactly the one given; null clears the native delegate |
| PhysicsBodyJava.PhysicsBody.OnCollided | android/app/src/main/java/com/viro/core/PhysicsBody.java:398-407 | a collision reaches the installed listener, and only while a native delegate exists |
| PhysicsBodyJava.MassLostAsWritten | android/app/src/main/java/com/viro/core/PhysicsBody.java:74-86 | a body created with mass 2 reports 0 to getMass while native code holds 2 |
| PhysicsBodyJava.GravityIgnoredAsWritten | android/app/src/main/java/com/viro/core/PhysicsBody.java:230-241 | after setUseGravity(false) getUseGravity still answers true |
| PhysicsBodyJava.ReplacedListenerIgnoredAsWritten | android/app/src/main/java/com/viro/core/PhysicsBody.java:359-369 | after replacing listener 1 by listener 2, a collision still goes to listener 1 |
| PhysicsBodyJava.ReplacedListenerCalled | android/app/src/main/java/com/viro/core/PhysicsBody.java:359-369 | corrected (see Findings): with the corrected setter the same sequence reaches listener 2 |
| PostProcessEffects.ProgramCache.constructor | ViroRenderer/VROPostProcessEffectFactory.cpp:26 | the static program cache starts empty |
| PostProcessEffects.ProgramCache.Get | ViroRenderer/VROPostProcessEffectFactory.cpp:142-155 | a create helper returns the cached program of its kind, and builds and caches one only when there is none |
| PostProcessEffects.ProgramCache.Reset | ViroRenderer/VROPostProcessEffectFactory.cpp:27-39 | the destructor drops every cached program, so the next request builds afresh |
| PostProcessEffects.Without | ViroRenderer/VROPostProcessEffectFactory.cpp:81-93 | erasing an effect leaves no entry for it and adds nothing |
| PostProcessEffects.WithoutKeepsOthers | ViroRenderer/VROPostProcessEffectFactory.cpp:81-93 | erasing an effect keeps every entry for another effect |
| PostProcessEffects.WithoutAbsent | ViroRenderer/VROPostProcessEffectFactory.cpp:81-93 | erasing an effect that is not applied changes nothing |
| PostProcessEffects.EnableThenDisable | ViroRenderer/VROPostProcessEffectFactory.cpp:41-93 | enabling a new effect and then disabling it restores the list |
| PostProcessEffects.WithoutDistinct | ViroRenderer/VROPostProcessEffectFactory.cpp:81-93 | erasing entries never introduces a duplicate effect |
| PostProcessEffects.EnableKeepsDistinct | ViroRenderer/VROPostProcessEffectFactory.cpp:41-79 | enabling keeps the applied list free of duplicate effects |
| PostProcessEffects.Factory.constructor | ViroRenderer/VROPostProcessEffectFactory.cpp:26 | a new factory applies no effect |
| PostProcessEffects.Factory.EnableEffect | ViroRenderer/VROPostProcessEffectFactory.cpp:41-79 | an effect already applied changes nothing; otherwise the empty effect is built, and a supported effect is appended with its cached program while an unsupported one leaves the list alone |
| PostProcessEffects.Factory.DisableEffect | ViroRenderer/VROPostProcessEffectFactory.cpp:81-93 | every entry for the effect is erased and the others keep their order |
| PostProcessEffects.Factory.ClearAllEffects | ViroRenderer/VROPostProcessEffectFactory.cpp:95-97 | no effect is applied any more |
| PostProcessEffects.Factory.HandlePostProcessing | ViroRenderer/VROPostProcessEffectFactory.cpp:99-110 | with no effect the source is returned untouched; otherwise the effects are chained through the two targets |
| PostProcessEffects.Factory.RenderEffects | ViroRenderer/VROPostProcessEffectFactory.cpp:112-140 | one blit per applied effect in list order, each reading what the previous one wrote, ending in A after an odd count and in B after an even one |
| PostProcessEffects.Programs | ViroRenderer/VROPostProcessEffectFactory.cpp:116-117 | the programs blitted are the applied effects' programs in order |
| PostProcessEffects.PingPong | ViroRenderer/VROPostProcessEffectFactory.cpp:116-137 | there is one pass per program |
| PostProcessEffects.PingPongChains | ViroRenderer/VROPostProcessEffectFactory.cpp:116-137 | the first pass reads the input into A and each later pass reads the previous pass's target, alternating between A and B |
| PostProcessEffects.FinalTargetStep | ViroRenderer/VROPostProcessEffectFactory.cpp:121-136 | after pass i the chain is in A when i is even and in B when it is odd |
| ShaderFactory.DeriveMaterialCapabilities | ViroRenderer/VROShaderFactory.cpp:123-200 | the key records the diffuse slot, its stereo mode and the EGL flag from the diffuse texture, a specular slot only for a 2D specular map under Blinn or Phong (which otherwise fall back to Lambert), and the normal and reflective flags |
| ShaderFactory.SpecularModelHasTexture | ViroRenderer/VROShaderFactory.cpp:123-200 | a key's lighting model is Blinn or Phong exactly when it has a specular texture |
| ShaderFactory.DeriveShadows | ViroRenderer/VROShaderFactory.cpp:202-211 | no light turns shadows on |
| ShaderFactory.SeqLessIrreflexive | ViroRenderer/VROShaderFactory.cpp:49-52 | the lexicographic comparison std::tie performs is irreflexive |
| ShaderFactory.SeqLessTransitive | ViroRenderer/VROShaderFactory.cpp:49-52 | the lexicographic comparison is transitive |
| ShaderFactory.SeqLessTotal | ViroRenderer/VROShaderFactory.cpp:49-52 | of two different sequences one is below the other |
| ShaderFactory.Encode | ViroRenderer/VROShaderFactory.cpp:68-71 | a key encodes as its eight capability fields followed by its modifier key |
| ShaderFactory.EncodeInjective | ViroRenderer/VROShaderFactory.cpp:68-71 | different keys encode differently |
| ShaderFactory.KeyOrderStrictTotal | ViroRenderer/VROShaderFactory.cpp:49-71 | the key order is a strict total order whose equivalence is equality, so the map holds one program per distinct key |
| ShaderFactory.StereoModifierFor | ViroRenderer/VROShaderFactory.cpp:491-529 | vertical layouts split along y and the rest along x, the swapped layouts give the first half to the right eye, and the two halves go to different eyes |
| ShaderFactory.StereoModifierCache.constructor | ViroRenderer/VROShaderFactory.cpp:31 | the stereo modifier cache starts empty |
| ShaderFactory.StereoModifierCache.Get | ViroRenderer/VROShaderFactory.cpp:491-529 | the modifier for a layout is the one for that layout and is cached under it |
| ShaderFactory.BaseFragmentShader | ViroRenderer/VROShaderFactory.cpp:220-231 | constant lighting with a cube diffuse uses constant_q_fsh, other constant lighting constant_fsh, and every other model standard_fsh |
| ShaderFactory.SamplersPresent | ViroRenderer/VROShaderFactory.cpp:236-295 | each sampler is declared exactly when the key has its texture |
| ShaderFactory.OptionalSamplersAre | ViroRenderer/VROShaderFactory.cpp:263-295 | each optional sampler is there exactly when its flag is set |
| ShaderFactory.LightingModifiersPresent | ViroRenderer/VROShaderFactory.cpp:281-290 | the Lambert, Blinn or Phong modifier appears exactly for that model |
| ShaderFactory.TextureModifiersPresent | ViroRenderer/VROShaderFactory.cpp:236-279 | the diffuse, YCbCr, stereo, EGL, specular, normal and reflective modifiers appear exactly when the key has that texture or mode |
| ShaderFactory.BuildShader | ViroRenderer/VROShaderFactory.cpp:213-306 | the program uses standard_vsh, the key's fragment shader and samplers, the material's modifiers followed by the key's, and the five standard attributes |
| ShaderFactory.SamplersInOrder | ViroRenderer/VROShaderFactory.cpp:236-295 | samplers come in the order diffuse, specular, normal, reflect, shadow map, each at most once |
| ShaderFactory.KeepShared | ViroRenderer/VROShaderFactory.cpp:105-119 | purging keeps, in order, only entries whose programs are held elsewhere |
| ShaderFactory.KeepSharedKeeps | ViroRenderer/VROShaderFactory.cpp:105-119 | every entry whose program is held elsewhere survives a purge |
| ShaderFactory.KeepSharedSorted | ViroRenderer/VROShaderFactory.cpp:105-119 | purging keeps the cache in key order |
| ShaderFactory.ForcedPurge | ViroRenderer/VROShaderFactory.cpp:105-119 | a forced purge leaves exactly the programs held elsewhere |
| ShaderFactory.LowerBound | ViroRenderer/VROShaderFactory.cpp:95 | the position found is the first entry whose key is not below the one sought |
| ShaderFactory.LookupHit | ViroRenderer/VROShaderFactory.cpp:95-102 | an equal key at the lower bound is the entry the lookup finds |
| ShaderFactory.LookupMiss | ViroRenderer/VROShaderFactory.cpp:95-98 | a key above the sought one at the lower bound means no entry has that key |
| ShaderFactory.InsertKeepsOrder | ViroRenderer/VROShaderFactory.cpp:97 | inserting at the lower bound keeps the cache in key order |
| ShaderFactory.Factory.constructor | ViroRenderer/VROShaderFactory.cpp:74-76 | a new factory has no cached programs |
| ShaderFactory.Factory.GetShader | ViroRenderer/VROShaderFactory.cpp:84-103 | the program cached under the material's key is returned unchanged, or a program built for that key is cached under it; no other key's entry changes |
| ShaderFactory.Factory.PurgeUnusedShaders | ViroRenderer/VROShaderFactory.cpp:105-119 | the walk stops at the first check with time remaining unless forced, and the walked entries keep only programs held elsewhere |
| ShaderFactory.PurgeWalk | ViroRenderer/VROShaderFactory.cpp:107-118 | the loop keeps the walked entries whose programs are shared and stops only when time remains and the purge is not forced |
| ShaderProgram.NewUniform | ViroRenderer/VROShaderProgram.cpp:19-74 | a new uniform carries the name and type, keeps the array size for vector and scalar types and drops it for matrix types |
| ShaderProgram.FirstIndex | ViroRenderer/VROShaderProgram.cpp:488-500 | the index found is -1 or the first uniform carrying the name, and no earlier uniform carries it |
| ShaderProgram.FirstIndexAppend | ViroRenderer/VROShaderProgram.cpp:488-500 | appending uniforms never moves a name that is already present |
| ShaderProgram.MemoLookup | ViroRenderer/VROShaderProgram.cpp:568-602 | a remembered miss answers -1, a cached hit answers its index, and only an unsearched memo searches and records the result |
| ShaderProgram.MemoLookupIdempotent | ViroRenderer/VROShaderProgram.cpp:568-602 | asking again with the memo a first lookup left gives the same answer and leaves the memo as it is, even after more uniforms are appended |
| ShaderProgram.MemoAfterAppend | ViroRenderer/VROShaderProgram.cpp:568-602 | a memoised hit stays right while uniforms are only appended, and a memoised miss stays -1 even after a uniform of that name is added |
| ShaderProgram.Program.constructor | ViroRenderer/VROShaderProgram.cpp:84-114 | the named constructor loads name_vsh and name_fsh, both non-empty, and starts unbuilt with no uniforms or samplers and every memo unsearched |
| ShaderProgram.Program.FromShaders | ViroRenderer/VROMaterialSubstrateOpenGL.cpp:388-389 | a program from explicit vertex and fragment asset names starts in the same fresh state with the given capabilities |
| ShaderProgram.Program.SetUniforms | ViroRenderer/VROShaderProgram.cpp:116-127 | the uniform list is replaced by one new uniform per name, in order, and needs rebinding |
| ShaderProgram.Program.SetSamplers | ViroRenderer/VROShaderProgram.cpp:129-135 | the sampler list is replaced by the names and nothing else changes |
| ShaderProgram.Program.AddUniform | ViroRenderer/VROShaderProgram.cpp:172-175 | one new uniform is appended and the uniforms need rebinding |
| ShaderProgram.Program.AddAttribute | ViroRenderer/VROShaderProgram.cpp:177-196 | Tex, Norm and Color add their capability bit and any other attribute aborts |
| ShaderProgram.Program.AddSampler | ViroRenderer/VROShaderProgram.cpp:198-202 | the sampler is appended and the uniforms need rebinding |
| ShaderProgram.Program.Hydrate | ViroRenderer/VROShaderProgram.cpp:228-246 | a program GL cannot create stays unbuilt and counts as success to retry later; a compile or link failure marks the program as failed to link; otherwise it is built |
| ShaderProgram.Program.CompileAndLink | ViroRenderer/VROShaderProgram.cpp:352-455 | success without a GL program when none can be created, failure when a shader does not compile or the program does not link, which also drops it |
| ShaderProgram.Program.Evict | ViroRenderer/VROShaderProgram.cpp:252-271 | the GL program is released, every memo and the norm transform are forgotten and the uniforms need rebinding; a link failure is remembered |
| ShaderProgram.Program.Bind | ViroRenderer/VROShaderProgram.cpp:457-474 | binding fails exactly for a program that failed to link; otherwise the locations are looked up exactly when they need rebinding |
| ShaderProgram.Program.GetUniformIndex | ViroRenderer/VROShaderProgram.cpp:488-500 | the index is that of the first uniform with the name, or -1 |
| ShaderProgram.Program.GetUniform | ViroRenderer/VROShaderProgram.cpp:502-510 | a uniform is returned exactly when one carries the name, and it is the first such |
| ShaderProgram.Program.GetAlphaUniformIndex | ViroRenderer/VROShaderProgram.cpp:568-581 | the alpha index follows the memoised lookup and nothing else changes |
| ShaderProgram.Program.GetColorUniformIndex | ViroRenderer/VROShaderProgram.cpp:588-602 | the colour index follows the memoised lookup and nothing else changes |
| ShaderProgram.Program.SetNormTransform | ViroRenderer/VROShaderProgram.cpp:535-545 | the matrix is uploaded only for a program with the Norm capability and only once until the program is evicted |
| TextFormatter.GetLengthOfWord | ViroRenderer/VROTextFormatter.cpp:469-479 | a word's width is the sum of its characters' glyph advances scaled to world units |
| TextFormatter.LineBudget | ViroRenderer/VROTextFormatter.cpp:481-486 | with no line cap and no clipping another line is always available, and with a cap an available line means the cap is not reached |
| TextFormatter.LineBudgetMonotone | ViroRenderer/VROTextFormatter.cpp:481-486 | with a non-negative line height, a budget that allows one more line after n + 1 lines also allows it after n |
| TextFormatter.NoNewlines | ViroRenderer/VROTextFormatter.cpp:231-269 | the text the wrapping modes place: no newline, and never longer than the input |
| TextFormatter.NoNewlinesPrefix | ViroRenderer/VROTextFormatter.cpp:231-269 | the placeable text of a prefix is a prefix of the whole placeable text |
| TextFormatter.WrapByChars | ViroRenderer/VROTextFormatter.cpp:231-269 | corrected (see Findings): character wrap: no line holds a newline and each fits the width (or is a single over-wide character), at most maxLines lines, the lines spell a prefix of the text without newlines, and all of it when neither a cap nor clipping applies |
| TextFormatter.CloseCharLine | ViroRenderer/VROTextFormatter.cpp:243-255 | a newline, or a character that does not fit on a non-empty line, closes the current line; only the newline is consumed, and a closed line that exhausts the budget stops the wrap |
| TextFormatter.CharWrapStep | ViroRenderer/VROTextFormatter.cpp:237-262 | one pass of the character loop keeps the loop invariant, places exactly the text read so far, and makes progress unless it stops on the budget |
| TextFormatter.CharWrapStopped | ViroRenderer/VROTextFormatter.cpp:245-247 | a character wrap stopped by the line budget has placed a prefix of the text, and such a stop cannot happen with no cap and no clipping |
| TextFormatter.FinishCharWrap | ViroRenderer/VROTextFormatter.cpp:264-266 | after the last character the current line is kept only when non-empty and the budget allows it, keeping every wrap guarantee |
| TextFormatter.Pieces | ViroRenderer/VROTextFormatter.cpp:271-316 | the pieces of the text between newlines: one more than the newlines, none holding a newline |
| TextFormatter.JoinPieces | ViroRenderer/VROTextFormatter.cpp:271-316 | joining the pieces with newlines gives the text back |
| TextFormatter.PiecesStable | ViroRenderer/VROTextFormatter.cpp:271-316 | the complete pieces of a prefix are the first pieces of the whole text |
| TextFormatter.Fit | ViroRenderer/VROTextFormatter.cpp:301-305 | without clipping a piece is kept whole; with clipping the kept characters stay strictly under the width; no newline is introduced |
| TextFormatter.WrapByNewlines | ViroRenderer/VROTextFormatter.cpp:271-316 | newline-only wrap: line k is piece k of the text fitted to the width, at most maxLines lines, and with no cap and no clipping every piece but a trailing empty one gives a line |
| TextFormatter.NewlineCloses | ViroRenderer/VROTextFormatter.cpp:286-294 | a newline closes the current line, and the next piece starts empty |
| TextFormatter.CharExtends | ViroRenderer/VROTextFormatter.cpp:302-305 | any other character extends the last piece, and its fitted line gains the character exactly when it fits |
| TextFormatter.NewlineWrapStep | ViroRenderer/VROTextFormatter.cpp:280-306 | one pass of the newline loop keeps every closed line equal to its fitted piece, and the current line equal to the fitted piece being read |
| TextFormatter.NewlineWrapStopped | ViroRenderer/VROTextFormatter.cpp:287-289 | a newline wrap stopped by the budget keeps only fitted pieces of the whole text, and only a cap or clipping can stop it |
| TextFormatter.FinishNewlineWrap | ViroRenderer/VROTextFormatter.cpp:309-311 | after the last character the current line is kept when non-empty and the budget allows it, completing the piece-by-piece correspondence |
| TextFormatter.FirstDelimiter | ViroRenderer/VROTextFormatter.cpp:160 | the first whitespace delimiter at or after the position, or the text length when there is none |
| TextFormatter.FirstNonDelimiter | ViroRenderer/VROTextFormatter.cpp:168 | the first non-delimiter at or after the position, or the text length when there is none |
| TextFormatter.FirstNewline | ViroRenderer/VROTextFormatter.cpp:162 | the first newline at or after the position, or the text length when there is none |
| TextFormatter.WordEnd | ViroRenderer/VROTextFormatter.cpp:160-179 | a word runs past the delimiters after its first delimiter but never past a newline, and is never empty |
| TextFormatter.WrapByWords | ViroRenderer/VROTextFormatter.cpp:121-229 | greedy word wrap: no line holds a newline and each fits the width or is a lone over-wide word, at most maxLines lines, the lines spell a prefix of the text without newlines (all of it, with a line per newline, when uncapped and unclipped), and they are a prefix of the unbounded greedy wrap, cut only by the budget |
| TextFormatter.WordWrapStep | ViroRenderer/VROTextFormatter.cpp:145-221 | one pass of the word loop keeps the loop invariant and the correspondence with the greedy wrap, and stops only with an empty current line and an exhausted budget |
| TextFormatter.PlaceWord | ViroRenderer/VROTextFormatter.cpp:181-217 | a word that fits joins the line; one that does not closes a non-empty line and is read again, or takes a line of its own when the line is empty |
| TextFormatter.WordAlone | ViroRenderer/VROTextFormatter.cpp:193-196 | a word too wide for an empty line goes on a line of its own and the invariant holds after it |
| TextFormatter.LineClosed | ViroRenderer/VROTextFormatter.cpp:202-206 | a word that does not fit closes the non-empty current line without being consumed |
| TextFormatter.WordJoins | ViroRenderer/VROTextFormatter.cpp:212-216 | a word that fits joins the current line and its width is added |
| TextFormatter.NewlineClosesLine | ViroRenderer/VROTextFormatter.cpp:147-158 | in the unbounded greedy wrap a leading newline closes the open line, even an empty one |
| TextFormatter.WordFits | ViroRenderer/VROTextFormatter.cpp:212-216 | in the unbounded greedy wrap a word that fits joins the open line |
| TextFormatter.WordTakesLine | ViroRenderer/VROTextFormatter.cpp:193-196 | in the unbounded greedy wrap a word too wide for the empty open line takes a line of its own |
| TextFormatter.WordClosesLine | ViroRenderer/VROTextFormatter.cpp:202-206 | in the unbounded greedy wrap a word that does not fit closes the non-empty open line |
| TextFormatter.GreedyPrefix | ViroRenderer/VROTextFormatter.cpp:121-229 | the lines closed so far are always a prefix of the unbounded greedy wrap |
| TextFormatter.GreedyEnd | ViroRenderer/VROTextFormatter.cpp:224-226 | at the end of the text the greedy wrap is the closed lines plus the current line when it is not empty |
| TextFormatter.ClipJustified | ViroRenderer/VROTextFormatter.cpp:457-476 | the justified lines are cut to the lesser of the clipping and maxLines counts, a prefix of the lines; a count that is negative or not below the line count keeps them all |
| TextFormatter.SpacingRatio | ViroRenderer/VROTextFormatter.cpp:446-452 | the ratio shares the free width over the spaces, so the text plus the stretched spaces is exactly the width |
| TextFormatter.StretchedWidth | ViroRenderer/VROTextFormatter.cpp:101-111 | laying out a line with a spacing ratio adds ratio - 1 space widths per space to its plain width |
| TextFormatter.JustifiedLineFills | ViroRenderer/VROTextFormatter.cpp:446-452 | a justified line with spaces, laid out with its ratio, exactly fills the maximum width |
| TextFormatter.MaxWidthIsMaximum | ViroRenderer/VROTextFormatter.cpp:115 | the realized width is at least the caller's value and every line's width, and equals one of them |
| TextFormatter.PlaceLine | ViroRenderer/VROTextFormatter.cpp:101-112 | each character is placed at the pen start plus the laid-out width of the characters before it, spaces stretched by the line's ratio |
| TextFormatter.PlaceLines | ViroRenderer/VROTextFormatter.cpp:72-116 | row k places line k on the k-th baseline below the first, starting at the alignment's x for the line's width, and the realized width is the widest line |
| TextFormatter.LayoutLines | ViroRenderer/VROTextFormatter.cpp:48-117 | one row per line from the vertical alignment's first baseline, the realized height is the line count times the line height and the realized width the widest line, and no newline glyph is placed when the lines hold none |
| TextFormatter.BreakLines | ViroRenderer/VROTextFormatter.cpp:30-46 | the wrapping modes give newline-free lines of ratio 1 and no more than maxLines; justified lines get only the final cut |
| TextFormatter.NoNewlineGlyphs | ViroRenderer/VROTextFormatter.cpp:101-105 | newline-free lines place no newline glyph |
| TextFormatter.FormatAndBuild | ViroRenderer/VROTextFormatter.cpp:20-118 | the realized height is the row count times the line height, the realized width never shrinks, the wrapping modes respect maxLines and place no newline glyph |
| TextFormatter.CharWrapAsWrittenNeverEnds | ViroRenderer/VROTextFormatter.cpp:240-262 | as written, with no cap and no clipping, a character wider than the box is retried forever: every pass closes another empty line and the loop never moves past it |
| TextFormatter.CharWrapAsWritten | ViroRenderer/VROTextFormatter.cpp:240-262 | as written: one pass moves the cursor by at most one character and adds at most one line; a pass that does not move the cursor adds a line |
| TextureJava.FormatForString | android/app/src/main/java/com/viro/core/Texture.java:57-65 | forString succeeds exactly for a name equal, up to case, to a format's string value, and throws for every other name |
| TextureJava.FormatValueFromString | android/app/src/main/java/com/viro/core/Texture.java:83-88 | null for null; otherwise the format stored under the lower-cased name, or null |
| TextureJava.FormatValueFromStringIff | android/app/src/main/java/com/viro/core/Texture.java:39-88 | valueFromString finds a format exactly when the name is its string value up to case |
| TextureJava.FormatForStringAgrees | android/app/src/main/java/com/viro/core/Texture.java:57-88 | forString and valueFromString accept the same names and agree on the format; they differ only in throwing or returning null |
| TextureJava.WrapModeValueFromString | android/app/src/main/java/com/viro/core/Texture.java:133-138 | null for null; otherwise a lookup of the lower-cased name |
| TextureJava.WrapModeValueFromStringIff | android/app/src/main/java/com/viro/core/Texture.java:92-138 | valueFromString finds a wrap mode exactly when the name is its string value up to case |
| TextureJava.FilterModeValueFromString | android/app/src/main/java/com/viro/core/Texture.java:177-182 | null for null; otherwise a lookup of the lower-cased name |
| TextureJava.FilterModeValueFromStringIff | android/app/src/main/java/com/viro/core/Texture.java:142-182 | valueFromString finds a filter mode exactly when the name is its string value up to case |
| TextureJava.StereoModeValueFromString | android/app/src/main/java/com/viro/core/Texture.java:243-248 | null for null; otherwise a lookup of the lower-cased name |
| TextureJava.StereoModeValueFromStringIff | android/app/src/main/java/com/viro/core/Texture.java:195-248 | valueFromString finds a stereo mode exactly when the name is its string value up to case |
| TextureJava.StereoArgument | android/app/src/main/java/com/viro/core/Texture.java:293-300 | constructors send null exactly when no stereo mode is given |
| TextureJava.StereoArgumentRoundTrip | android/app/src/main/java/com/viro/core/Texture.java:195-248 | the stereo string a constructor sends reads back as the same mode |
| TextureJava.FormatsCrossBridge | ViroRenderer/capi/Texture_JNI.cpp:34-61 | each Java format's string value parses in native code to the format of the same name, for both the input and the storage parser |
| TextureJava.SamplingModesCrossBridge | ViroRenderer/capi/Texture_JNI.cpp:63-121 | a wrap or filter mode sent to native code and written back comes home as the same Java constant |
| TextureJava.DataTextureError | android/app/src/main/java/com/viro/core/Texture.java:398-415 | the ByteBuffer constructor throws exactly when the buffer is not direct, when exactly one of input and storage format is RGB9_E5, or when RGB9_E5 input asks for mipmaps |
| TextureJava.AcceptedDataFormatsAgree | android/app/src/main/java/com/viro/core/Texture.java:398-422 | an accepted ByteBuffer texture reaches native code with input and storage formats that are both RGB9_E5 or both not |
| TextureJava.BitmapTextureError | android/app/src/main/java/com/viro/core/Texture.java:313-370 | the Bitmap constructors, 2D and cube, throw exactly for RGB9_E5 storage |
| TextureJava.VhdTextureError | android/app/src/main/java/com/viro/core/Texture.java:435-440 | the VHD constructor throws exactly for a buffer that is not direct |
| TextureJava.Texture.constructor | android/app/src/main/java/com/viro/core/Texture.java:252-256 | a texture starts with both wrap modes CLAMP and all three filters LINEAR |
| TextureJava.Texture.CreateFromData | android/app/src/main/java/com/viro/core/Texture.java:398-422 | an error exactly when DataTextureError names one; otherwise a fresh texture with the given size around a fresh native texture built from the formats' names |
| TextureJava.Texture.SetWrapS | android/app/src/main/java/com/viro/core/Texture.java:488-491 | the Java field takes the mode and the native texture the mode its name parses to, so the two agree afterwards |
| TextureJava.Texture.SetWrapT | android/app/src/main/java/com/viro/core/Texture.java:508-511 | the same for the vertical wrap mode |
| TextureJava.Texture.SetMinificationFilter | android/app/src/main/java/com/viro/core/Texture.java:529-532 | the same for the minification filter |
| TextureJava.Texture.SetMagnificationFilter | android/app/src/main/java/com/viro/core/Texture.java:550-553 | the same for the magnification filter |
| TextureJava.Texture.SetMipFilter | android/app/src/main/java/com/viro/core/Texture.java:578-581 | the same for the mip filter |
| TextureJNI.GetInputFormat | ViroRenderer/capi/Texture_JNI.cpp:34-46 | "RGB565" and "RGB9_E5" select their formats, compared exactly; any other name is RGBA8 |
| TextureJNI.GetFormat | ViroRenderer/capi/Texture_JNI.cpp:48-61 | "RGBA4", "RGB565" and "RGB9_E5" select their formats, compared exactly; any other name is RGBA8 |
| TextureJNI.InputAndStorageFormatsAgree | ViroRenderer/capi/Texture_JNI.cpp:34-61 | the two parsers agree on every name except "RGBA4", which only the storage parser knows |
| TextureJNI.GetWrapMode | ViroRenderer/capi/Texture_JNI.cpp:63-73 | "Repeat" and "Mirror" select their modes; any other name is Clamp |
| TextureJNI.GetFilterMode | ViroRenderer/capi/Texture_JNI.cpp:75-82 | "Nearest" selects nearest; any other name is Linear |
| TextureJNI.GetStereoMode | ViroRenderer/capi/Texture_JNI.cpp:84-92 | a null or empty string means no stereo; any other goes to the renderer's stereo parser |
| TextureJNI.JavaNamesInjective | ViroRenderer/capi/Texture_JNI.cpp:94-121 | distinct native modes are written back as distinct Java constants |
| TextureJNI.NativeTexture.CreateFromData | ViroRenderer/capi/Texture_JNI.cpp:242-262 | the native texture has the given size, the parsed input and storage formats and the parsed stereo mode |
| TextureJNI.NativeTexture.SetWrapS | ViroRenderer/capi/Texture_JNI.cpp:301-307 | the horizontal wrap mode becomes the parsed name |
| TextureJNI.NativeTexture.SetWrapT | ViroRenderer/capi/Texture_JNI.cpp:309-315 | the vertical wrap mode becomes the parsed name |
| TextureJNI.NativeTexture.SetMinificationFilter | ViroRenderer/capi/Texture_JNI.cpp:317-323 | the minification filter becomes the parsed name |
| TextureJNI.NativeTexture.SetMagnificationFilter | ViroRenderer/capi/Texture_JNI.cpp:325-331 | the magnification filter becomes the parsed name |
| TextureJNI.NativeTexture.SetMipFilter | ViroRenderer/capi/Texture_JNI.cpp:333-339 | the mip filter becomes the parsed name |
| TextureJNI.CreateJTextureAsWritten | ViroRenderer/capi/Texture_JNI.cpp:123-147 | as written: the Java texture gets the native width as both its width and its height |
| TextureJNI.CreateJTextureLosesHeight | ViroRenderer/capi/Texture_JNI.cpp:123-147 | any texture that is not square comes back to Java with the wrong height |
| TextureJNI.CreateJTexture | ViroRenderer/capi/Texture_JNI.cpp:123-147 | corrected: the Java texture gets the native width and height and the Java constants of its wrap and filter modes |
| TextureJNI.JTextureOf | ViroRenderer/capi/Texture_JNI.cpp:123-147 | corrected (uses TextureJNI.CreateJTexture, see Findings): the Java object for a native texture carries that texture's width and height |
| MaterialJNI.Unit | ViroRenderer/capi/Material_JNI.cpp:23-29 | a channel byte scaled to [0, 1] |
| MaterialJNI.ParseColor | ViroRenderer/capi/Material_JNI.cpp:23-29 | every channel of a parsed colour lies in [0, 1] |
| MaterialJNI.ParseColorUnpacks | ViroRenderer/capi/Material_JNI.cpp:23-29 | a colour packed as alpha, red, green, blue bytes, whatever the upper word holds, reads back as the same four channels |
| MaterialJNI.ParseLightingModel | ViroRenderer/capi/Material_JNI.cpp:33-50 | Blinn, Lambert, Phong and PhysicallyBased are chosen by name up to case; every other name gives Constant |
| MaterialJNI.LightingModelNamesDistinct | ViroRenderer/capi/Material_JNI.cpp:33-50 | no two lighting models share a name up to case |
| MaterialJNI.ParseLightingModelIff | ViroRenderer/capi/Material_JNI.cpp:33-50 | a name selects a non-constant lighting model exactly when it is that model's name up to case |
| MaterialJNI.ParseBlendMode | ViroRenderer/capi/Material_JNI.cpp:52-74 | a recognised name selects its blend mode; any other name gives None |
| MaterialJNI.BlendModeNamesDistinct | ViroRenderer/capi/Material_JNI.cpp:52-74 | no two blend modes share a name up to case |
| MaterialJNI.ParseBlendModeIff | ViroRenderer/capi/Material_JNI.cpp:52-74 | each blend mode is selected by its own name and by no other; None also answers every unknown name |
| MaterialJNI.ParseTransparencyMode | ViroRenderer/capi/Material_JNI.cpp:76-84 | RGBZero exactly for its name up to case, AOne otherwise |
| MaterialJNI.ParseCullMode | ViroRenderer/capi/Material_JNI.cpp:86-96 | None and Front by name up to case, Back otherwise |
| MaterialJNI.TextureVisual | ViroRenderer/capi/Material_JNI.cpp:154-194 | the visual whose texture a name sets, found exactly when the name is that visual's texture name up to case |
| MaterialJNI.TextureNamesDistinct | ViroRenderer/capi/Material_JNI.cpp:154-194 | no two visuals share a texture name |
| MaterialJNI.TextureVisualIff | ViroRenderer/capi/Material_JNI.cpp:154-194 | a name selects a visual's texture exactly when it is that visual's texture name up to case |
| MaterialJNI.ColorVisual | ViroRenderer/capi/Material_JNI.cpp:196-228 | the visual whose colour a name sets, found exactly when the name is that visual's colour name |
| MaterialJNI.ColorNamesDistinct | ViroRenderer/capi/Material_JNI.cpp:196-228 | no two visuals share a colour name |
| MaterialJNI.ColorVisualIff | ViroRenderer/capi/Material_JNI.cpp:196-228 | a name selects a visual's colour exactly when it is that visual's colour name up to case |
| MaterialJNI.FloatVisual | ViroRenderer/capi/Material_JNI.cpp:230-248 | "metalness" and "roughness" select their visuals; other names select none |
| MaterialJNI.ParseShadowMode | ViroRenderer/capi/Material_JNI.cpp:367-393 | Disabled and Transparent by name up to case; anything else is the normal mode |
| MaterialJNI.Material.CreateImmutable | ViroRenderer/capi/Material_JNI.cpp:103-128 | the material takes the parsed lighting, cull, transparency and blend modes and the parsed diffuse colour; other visuals keep their defaults |
| MaterialJNI.Material.SetTexture | ViroRenderer/capi/Material_JNI.cpp:154-194 | the one visual the name selects takes the texture (reference -1 clears it); an unknown name changes nothing |
| MaterialJNI.Material.SetColor | ViroRenderer/capi/Material_JNI.cpp:196-228 | the one visual the name selects takes the parsed colour; an unknown name changes nothing |
| MaterialJNI.Material.SetFloat | ViroRenderer/capi/Material_JNI.cpp:230-248 | metalness and roughness store the value as the grey colour (v, v, v, 1); other names change nothing |
| MaterialJNI.Material.SetShadowMode | ViroRenderer/capi/Material_JNI.cpp:367-393 | the AR shadow flag is set exactly for Transparent, and shadows are received exactly unless Disabled |
| MaterialJNI.Material.SetLightingModel | ViroRenderer/capi/Material_JNI.cpp:276-290 | the lighting model becomes the parsed name |
| MaterialJNI.Material.SetBlendMode | ViroRenderer/capi/Material_JNI.cpp:292-306 | the blend mode becomes the parsed name |
| MaterialJNI.Material.SetTransparencyMode | ViroRenderer/capi/Material_JNI.cpp:308-322 | the transparency mode becomes the parsed name |
| MaterialJNI.Material.SetCullMode | ViroRenderer/capi/Material_JNI.cpp:324-338 | the cull mode becomes the parsed name |
| VisionEngine.Tick | ios/ViroKit/VROVisionEngine.cpp:503-504 | the frame tick is the unsigned 64-bit difference of the two clock readings, the plain difference when the clock did not wrap |
| VisionEngine.SumUpdate | ios/ViroKit/VROVisionEngine.cpp:626-636 | replacing one sample of the window changes its sum by the difference, which is what the running sum tracks |
| VisionEngine.ScanJoints | ios/ViroKit/VROVisionEngine.cpp:517-533 | the joint scan counts the confident joints, takes the extremes of their coordinates and records which joints were found |
| VisionEngine.ExtremesBound | ios/ViroKit/VROVisionEngine.cpp:517-533 | the extremes bound every confident joint, are attained by one when there is any, and stay at FLT_MAX and -FLT_MAX when there is none |
| VisionEngine.ClampToImage | ios/ViroKit/VROVisionEngine.cpp:595-598 | the final clamp always leaves a box inside the unit image and leaves a box already inside unchanged |
| VisionEngine.BoundsShape | ios/ViroKit/VROVisionEngine.cpp:514-602 | a crop box exists exactly when at least 6 joints are confident, and it always lies inside the image |
| VisionEngine.GrowStepsKeepSpan | ios/ViroKit/VROVisionEngine.cpp:546-593 | padding, the four expansions towards missing joints and the pelvis reach each only push the box's edges outwards |
| VisionEngine.GrownKeepsSpan | ios/ViroKit/VROVisionEngine.cpp:546-593 | padding and all the growing together keep every span the joint box had |
| VisionEngine.ClampKeepsCover | ios/ViroKit/VROVisionEngine.cpp:595-598 | clamping keeps every point of the image the box held |
| VisionEngine.BoundsCoverBody | ios/ViroKit/VROVisionEngine.cpp:514-602 | the crop box holds every confident joint that lies in the image, so the crop never cuts off a detected part of the body |
| VisionEngine.DeriveBounds | ios/ViroKit/VROVisionEngine.cpp:514-602 | the step-by-step bounds computation yields the specified crop box |
| VisionEngine.GrowBox | ios/ViroKit/VROVisionEngine.cpp:551-573 | the expansions towards joints that were not found give the specified grown box |
| VisionEngine.ReachPelvis | ios/ViroKit/VROVisionEngine.cpp:576-593 | the box is extended upwards to the largest pelvis-to-ankle distance from the pelvis when that reaches above it |
| VisionEngine.ClampBox | ios/ViroKit/VROVisionEngine.cpp:595-600 | the closing clamp yields the clamped rectangle |
| VisionEngine.SmoothedProperties | ios/ViroKit/VROVisionEngine.cpp:604-622 | smoothing takes the first box as it is, keeps the result inside the image, and leaves a box that stopped moving where it is |
| VisionEngine.DeriveBoundsSmooth | ios/ViroKit/VROVisionEngine.cpp:604-622 | the smoothed box is the new bounds interpolated from the previous crop box |
| VisionEngine.Clamp | ios/ViroKit/VROVisionEngine.cpp:356-359 | a clamped value lies between the bounds and is unchanged when already between them |
| VisionEngine.CropRegion | ios/ViroKit/VROVisionEngine.cpp:351-359 | the crop region starts at least 0.001 in and ends at most 0.999 on both axes, with non-negative size |
| VisionEngine.RegionOfInterest | ios/ViroKit/VROVisionEngine.cpp:342-397 | no crop box or a crop region within 0.05 of the full image gives the full image, otherwise the crop region flipped to the bottom-up axis; either way inside the unit square |
| VisionEngine.ClampInt | ios/ViroKit/VROVisionEngine.cpp:452-455 | a clamped pixel coordinate lies between the bounds and is unchanged when already between them |
| VisionEngine.CropRect | ios/ViroKit/VROVisionEngine.cpp:419-455 | the pixel crop rectangle always lies inside the image |
| VisionEngine.CropRectKeepsInside | ios/ViroKit/VROVisionEngine.cpp:419-455 | without a crop box the rectangle is the whole image, and a box's pixel coordinates are kept wherever they lie inside the image |
| VisionEngine.ClampCrop | ios/ViroKit/VROVisionEngine.cpp:447-455 | the scaling and clamping steps give the specified crop rectangle |
| VisionEngine.Engine.constructor | ios/ViroKit/VROVisionEngine.cpp:81-136 | the frame-rate window starts zero-filled at index 0 with sum 0, no crop box and no scratch buffer |
| VisionEngine.Engine.UpdateFPS | ios/ViroKit/VROVisionEngine.cpp:626-636 | the new tick replaces the oldest sample, the running sum stays the window's sum, and the index wraps at the window size |
| VisionEngine.Engine.FPS | ios/ViroKit/VROVisionEngine.cpp:638-641 | the rate is the inverse of the average frame time in seconds, and there is no finite rate exactly when the window sums to 0 |
| VisionEngine.Engine.ProcessVisionResults | ios/ViroKit/VROVisionEngine.cpp:474-512 | joints update the crop box by the smoothed bounds, no joints leave it, and the tick since the last frame goes into the frame-rate window |
| VisionEngine.Engine.PerformCropAndPad | ios/ViroKit/VROVisionEngine.cpp:419-469 | the crop rectangle is the whole image without a crop box, the scratch buffer is kept when large enough and otherwise reallocated to width times height times 4 |

## Left out

General abstractions:

- GPU, driver and platform APIs (OpenGL, EGL, vrapi, ARCore, AVFoundation, CoreML, Vision, Android framework calls) are not executed. Where the modelled logic depends on them, it records them in a call log or takes their results as parameters.
- Threads are not modelled. This covers mutexes, condition variables, dispatch queues, executors, Java `synchronized` blocks, and posting work to the UI or render thread (a posted task runs immediately in the model). Weak references are sets of live objects, and garbage collection is not modelled.
- C++ `float`/`double` and Java `float` are exact reals. Rounding, infinities and NaN are not modelled. Where the source divides by a value it never checks, the model requires it to be non-zero.
- C++ `int` and `short` and Java `int` are unbounded integers, except where a conversion is written out. Overflow, which is undefined in C++ and wraps in Java, is not modelled. GeometrySubstrateOpenGL.MaxSize is one example: its `vertexCount * dataStride` product is computed as a C++ `int` at VROGeometrySubstrateOpenGL.cpp:104.
- Java strings are never null in the model. A Java `valueFromString(null)` throws a NullPointerException from `str.toLowerCase()` (for example ParticleEmitter.java:205-207). ParticleEmitterJava.FactorValueFromString, SceneNode.DragTypeValueFromString and SceneNode.TransformBehaviorValueFromString take non-null strings. The Texture lookups, which take an Option, model null as None.
- Case-insensitive name matching folds ASCII letters only. Java's `equalsIgnoreCase` and `toLowerCase` also fold other Unicode letters.
- Clocks, random draws and foreign results are parameters:
  - the particle emitter's `now`, `draws`, `lifetimes`, `distanceFromStart`, `resetClock`, and the per-second and per-meter spawn counts `perSecond`/`perMeter`, because getSpawnParticlesPerSecond and getSpawnParticlesPerMeter draw random rates;
  - the body tracker's `unproject`, `reachable` and `smooth`. Unprojection, the bone-reachability test and the moving average are not modelled;
  - the vision engine's One Euro `filter` and joint `distance`;
  - the driver's `initialStencil` and `timeRemaining`, and the shader factory's `timeRemaining` (the frame timer);
  - the charmap reader's `vsIndex`, standing for getVsIndex of VROFontUtil, which is not part of this model;
  - the geometry substrate's and glTF loader's `primitiveCount`, `indicesCount` and `attributeIndex`, standing for VROGeometryUtil, which is not part of this model;
  - the shader program's `assets` and its GL build outcome (GLBuild), and the morpher's `read`, which stands for the vertex read-back;
  - the blend-mode parser `blendModeFromString` of VROMaterial, which is not part of this model.
- Headers that are not part of this model supply these assumptions:
  - enum orders and values, taken in declaration order: VROMaterial.h, VROShaderProgram.h, VROBodyTracker.h and VROParticleEmitter.h;
  - the values of VROGLTFLoader.h's enums, which are not taken in declaration order: a GLTFTypeComponent value is the component's size in bytes and a GLTFType value its component count, as the element-size product `(int) gType * (int) gTypeComponent` at ViroRenderer/VROGLTFLoader.cpp:435 and :494 requires; GltfLoader.ComponentSize, GltfLoader.IsFloat and GltfLoader.IndexGuardRefusesAsWritten rest on this;
  - kTextPointToWorldScale, a font parameter `scale`;
  - kNeuralFPSMaxSamples, the vision engine constructor's `samples`.

Per file:

- VROTextFormatter.cpp: the Knuth-Plass line breaking inside `justify` (VROKnuthPlassFormatter) and `divideIntoParagraphs` are not modelled. In Justify mode the broken lines come in as a parameter. Only the final cut (ClipJustified) and the spacing-ratio arithmetic (SpacingRatio) are modelled, along with its greedy fallback, because that is WrapByWords.
- VROGLTFLoader.cpp: `getMaterial` and `processPBR` are not modelled. Meshes keep material indices, so ProcessMesh leaves the texture cache unchanged. The cache itself is modelled by GetTexture. The tiny_gltf document is a value.
- VROShaderFactory.cpp: `deriveMaterialCapabilitiesKey` (lines 124-197) leaves capability fields unset on some paths. Reading them is undefined behaviour. The model reads them as false.
- VROPostProcessEffectFactory.cpp:88 `erase(it)` does not reassign `it`, which is undefined behaviour. The model erases the entry and continues with the next one. The particle emitter's erase walks (VROParticleEmitter.cpp:329, 350, 377, 388) are modelled the same way.
- VROBodyTrackerController.cpp:704-706 uses an iterator after erasing it, which is undefined behaviour. The model takes the evident intent (remove the joint).
- VROBodyTrackerController.cpp:
  - TimeoutMs gives the stale times that bindModel stores. Before bindModel the map is empty and every joint would read 0.
  - BodyTrackerController.EventDelegate.constructor starts `_scaleStart` at 0, which the source leaves uninitialised until the first pinch begins.
  - The pose-model output, the camera, the projected-transform matrices (only their translation is kept) and the exponential moving average are not modelled.
- VROGeometrySubstrateOpenGL.cpp:
  - The primitive-type switch (lines 193-210) has no return after it. Because the enum has exactly the four handled values, the model has no fall-through case.
  - `readGeometrySources` calls `sources.front()` on line 76 even for an empty list, which is undefined behaviour. GeometrySubstrateOpenGL.Substrate.ReadGeometrySources accepts the empty list and builds no descriptor.
- VRODriverOpenGL.h: the constructor leaves the stencil-test flag unset (undefined). The model takes its initial value as `initialStencil`.
- DistortionRenderer.Renderer.FovDidChange requires a non-zero screen width, height and eye-to-screen distance, which the source never checks (its float division would give infinity). The tangent of the field of view, the mesh vertex math and the GL texture and mesh objects are not modelled: vertex values are a parameter function.
- VROSceneRendererOVR.cpp:
  - SceneRendererOVR.MessageQueue.Post requires room in the queue where the source busy-waits for it (lines 2030-2033). The RECEIVED/PROCESSED handshakes (2039-2054) and the sleeping wait for a message (2058-2078) are thread waits, and are not modelled.
  - The queue's Head and Tail counters are unbounded. Their 32-bit overflow after 2^31 posts is not modelled.
  - Message parameters that carry addresses or floats are not modelled.
  - Also not modelled: the touch handler (its body is compiled out), the event-loop dispatch, EGL and rendering.
- SceneRendererOVR.Framebuffer.Advance requires a current index below the swap-chain length. The source divides by that length, which is 0 after the framebuffer is cleared.
- VROARSessionARCore.cpp: the ARCore session, frames, poses, delegate notifications and `updateARCoreConfig` are not modelled. The caller-side buffer handling at lines 320-336 is not modelled either.
- VROVisionEngine.cpp: the vision/viewport transforms, the front-camera flip (lines 490-495), the CoreML requests, the pixel work of cropAndResize and the debug photo writing are not modelled.
- VROMorpher.cpp:
  - The animated `setWeightForTarget` paths (lines 529-564) run through VROAnimation callbacks, and are not modelled.
  - The uniform-binder closures and generated shader code strings are not modelled. Shader modifiers are identified by their slot.
  - Morpher.Morpher.ProcessMorphTargets requires ShapesFit: no target has more vectors of a kind than the base, which sizes the buffers. The source never checks this. A larger target would write past the buffer, which is undefined behaviour. The same requirement, for the same reason, is on the members listed in the next two lines.
  - Morpher.Morpher.Update, Morpher.Morpher.UpdateCPU, Morpher.Morpher.UpdateHybrid and Morpher.Morpher.SecondPass.
  - Morpher.BlendNext, Morpher.BlendBuffers and Morpher.EmitAll.
- VROParticleEmitter.cpp: the particles' physics, appearance modifiers, billboarding, transforms and instance buffer are not modelled. `update()` only sequences the modelled steps after a weak-node check, and is not modelled.
- VROParticleEmitter.cpp:313-315: a burst whose reference factor is neither time nor distance takes a `continue` without advancing the iterator, so the loop would never end. In the model a burst factor has only those two values, so this case cannot arise.
- ByteBuffer.Buffer.Grow: for a buffer that does not own its bytes, the source reallocates them before it reports the error and aborts (under kBufferAbortOverruns). The model reports the abort with the buffer unchanged. Memory allocation failure is not modelled.
- VROShaderProgram.cpp: this file is an older version than the one VROMaterialSubstrateOpenGL.cpp calls. VROShaderProgram.h is not part of this model. ShaderProgram.Program.FromShaders stands for the named-shader constructor, and the shader source loading it performs is taken from `assets`.
- ViroKeenClient.java: publishing, the HTTP proxy and JSON serialisation are not modelled. The event store is kept in memory: a set of cached events and a map of attempt counts.
- Material_JNI.cpp and Texture_JNI.cpp: setters that only forward a value to the native object are not modelled. Material.java is not part of this model: its blend-mode string values are taken to be the names the native parser accepts.
- Texture.java: the Bitmap, cube-map and VHD constructors are modelled only by their argument checks. Image decoding and the native textures are not.
- ParticleEmitter.java: the plain setters and getters for delay, duration, loop, fixed-to-emitter, particle lifetime, max particles and bloom only store a value and forward it, and are not modelled.
- Node.java:
  - position, rotation, scale, visibility and the other setters that only forward to native code are not modelled. `updateWorldTransforms` (a recursion over native calls) is not modelled either.
  - SceneNode.Node.RemoveAllChildNodes requires linked children (each child's parent is this node). The source does not check this: a child re-parented elsewhere while still listed here is not modelled. A child listed more than once is modelled.
- ARScene.java:
  - The native ARScene calls and the listeners' own behaviour are not modelled. Delivered callbacks are recorded in order.
  - `onAnchorUpdated` (a node lookup by id, then the listener) is not modelled.
  - `onAmbientLightUpdate` (forwards the light estimate to the listener) is not modelled.
  - The image database is not modelled: `loadARImageDatabase`, `unloadARImageDatabase`, their declarative forms, and the callbacks `onLoadARImageDatabaseSuccess` and `onLoadARImageDatabaseFailure`.
- AnimatedTexture.AnimatedTextureOpenGL.AnimateTexture requires at least one frame, and so do Init and PauseThenPlay. With no frames, `_animatedFrameData.size() - 1` at VROAnimatedTextureOpenGL.cpp:103 wraps around as an unsigned value, so the loop reads past the empty vector. That is undefined behaviour, so the model leaves the case out.
- ByteBuffer.Buffer.ReadSTLStringUTF8 requires the signed 2-byte count to be non-negative. A negative `short` count at VROByteBuffer.cpp:244 becomes a huge `size_t` length in the `std::string` constructor. That is undefined behaviour or a length_error throw, and the model leaves it out.
- ParticleEmitterJNI.DecodeBursts, ParticleEmitterJNI.DecodeBurstTable and ParticleEmitterJNI.NativeEmitter.SetParticleBursts require every burst row to hold at least six numbers (WellFormedRows). ParticleEmitter_JNI.cpp reads six elements of each row without checking the row's length. The rows built by ParticleEmitter.java always have six: ParticleEmitterJava.EncodeBursts ensures WellFormedRows.
- ViroMediaRecorder.java:
  - The device enters as outcome parameters: permissions, storage directories, mkdir, the Android MediaRecorder (including an exception from its start(), see Findings), building and queueing a screenshot request, GL pixel reads and file writes.
  - Broadcasting a saved screenshot to the camera roll and reversing bitmap rows are not modelled.
- PhysicsBody.java: the static body-type and shape checks are native calls, and are not modelled.

## Findings

| source | as written | input that shows it | evidently intended | confidence | as-written member | corrected member |
|---|---|---|---|---|---|---|
| ViroRenderer/VROByteBuffer.cpp:558-566 | `fill` guards the overrun with `pos > capacity` and never counts the bytes it is about to write | capacity 4, pos 0, numBytes 8: the guard passes and 8 bytes are written into 4 | refuse when pos + numBytes exceeds the capacity | not executed | ByteBuffer.FillOverrunAsWritten, ByteBuffer.FillGuardMissesOverrun | ByteBuffer.FillOverrun, ByteBuffer.Buffer.Fill |
| ViroRenderer/VROByteBuffer.cpp:295-298 | `peekInt` ORs the four bytes read through signed `char`, so a byte of 0x80 or more sign-extends over the higher bytes | on a target where `char` is signed, bytes 0x80 0 0 0: peekInt gives -128 where readInt gives 128 | the int the four bytes encode, as readInt reads it | not executed | ByteBuffer.PeekIntAsWritten, ByteBuffer.PeekIntSignExtension | ByteBuffer.PeekIntOf, ByteBuffer.Buffer.PeekInt |
| ViroRenderer/VROTextFormatter.cpp:240-262 | a character wider than the box on an empty line closes the (empty) line and steps back to retry the same character | one character wider than the box, no line cap, no clipping: the loop pushes empty lines forever | place the over-wide character alone on its line, as wrapByWords does for words | not executed | TextFormatter.CharWrapAsWritten, TextFormatter.CharWrapAsWrittenNeverEnds | TextFormatter.WrapByChars |
| ViroRenderer/VROGLTFLoader.cpp:422-429 | the index-type guard joins its tests with `&&`, and the component enumerators compare by byte size, so it refuses nothing | a SCALAR FLOAT or a VEC3 UNSIGNED_SHORT index accessor passes | refuse an index accessor unless it is SCALAR with an integer component type | not executed | GltfLoader.IndexGuardRefusesAsWritten, GltfLoader.IndexGuardAsWrittenRefusesNothing, GltfLoader.IndexGuardAsWrittenAcceptsFloats | GltfLoader.IndexGuardRefuses, GltfLoader.IndexGuardPasses, GltfLoader.ProcessVertexElement, GltfLoader.Loader.ProcessMesh |
| ViroRenderer/VROMorpher.cpp:141-166 | the targets competing for the seven GPU morph slots are sorted by ascending weight before the greedy pick | two four-attribute targets of weights 0 and 1: only the weight-0 target is morphed | the heaviest targets take the slots first | not executed | Morpher.AscendingSortSkipsHeaviest | Morpher.HeaviestChosen, Morpher.ChooseAndSlot, Morpher.PlanGPU, Morpher.Morpher.ConfigureShadersGPU, Morpher.Morpher.ConfigureMorphTargets, Morpher.Morpher.ConvertToCPU, Morpher.Morpher.ConvertToGPU, Morpher.Morpher.SetComputeLocation, Morpher.Morpher.AddTarget, Morpher.Morpher.PutTarget, Morpher.Morpher.FallBackIfFull |
| ViroRenderer/VROMorpher.cpp:270-279 | the hybrid path's mixing tests are chained by `else if`, so only the first morphed attribute gets a mix | a target morphing positions and normals: the normal mix is never added | one mix for each attribute some target morphs | not executed | Morpher.HybridSlotsAsWritten, Morpher.HybridNormalsDropped | Morpher.HybridSlots, Morpher.Morpher.ConfigureShadersHybrid, Morpher.Morpher.ConfigureMorphTargets, Morpher.Morpher.ConvertToCPU, Morpher.Morpher.ConvertToGPU, Morpher.Morpher.SetComputeLocation, Morpher.Morpher.AddTarget, Morpher.Morpher.PutTarget, Morpher.Morpher.FallBackIfFull |
| ViroRenderer/VROMorpher.cpp:768 | the fourth float of a weighted tangent receives z instead of the handedness w | tangent (0, 0, 0, 1) with weight 1: the fourth float gains 0 | add w times the weight | not executed | Morpher.Contribution4AsWritten, Morpher.TangentHandednessDropped | Morpher.AddWeighted, Morpher.BlendAt, Morpher.BaseFloats, Morpher.AddIfPresent, Morpher.BlendTarget, Morpher.BlendNext, Morpher.BlendBuffers, Morpher.Morpher.ProcessMorphTargets, Morpher.Morpher.Update, Morpher.Morpher.UpdateCPU, Morpher.Morpher.UpdateHybrid, Morpher.Morpher.SecondPass |
| ViroRenderer/VROMorpher.cpp:588-627 | converting a target yields null when it holds no morph-type data, and the caller stores that null | a GPU target whose only source is not a morph type: converted to CPU and back it becomes null | a target with no vectors stays a target | not executed | Morpher.ToCPUAsWritten, Morpher.ToGPUAsWritten, Morpher.NullAfterCPURoundTrip | Morpher.ToCPU, Morpher.ToGPU, Morpher.ConvertAll, Morpher.Morpher.ConfigureMorphTargets, Morpher.Morpher.ConvertToCPU, Morpher.Morpher.ConvertToGPU, Morpher.Morpher.SetComputeLocation, Morpher.Morpher.AddTarget, Morpher.Morpher.PutTarget, Morpher.Morpher.FallBackIfFull |
| ViroRenderer/VROParticleEmitter.cpp:235-236 | the spawn cap counts live particles minus zombies, although zombies were already moved out of the live list | 480 live, 20 zombies, 40 requested, maximum 500: the spawn passes and the pool reaches 520 | refuse a spawn that takes the live particles past the maximum | not executed | ParticleEmitter.SpawnAllowedAsWritten, ParticleEmitter.CapExceededAsWritten | ParticleEmitter.SpawnWithinCap, ParticleEmitter.SpawnStep, ParticleEmitter.UpdatePool, ParticleEmitter.SpawnKeepsCap, ParticleEmitter.PoolKeepsCap, ParticleEmitter.Emitter.UpdateParticleSpawn, ParticleEmitter.Emitter.UpdateParticles |
| ViroRenderer/VROAnimatedTextureOpenGL.cpp:256 | the palette bound is `clrIndex <= ColorCount`, one past the table | a four-colour table and index 4: the guard passes and reads entry 4 | accept indices below the colour count | not executed | AnimatedTexture.InPaletteAsWritten, AnimatedTexture.PaletteOverrunAsWritten | AnimatedTexture.BaseColor, AnimatedTexture.BaseColorChannels |
| ViroRenderer/VROAnimatedTextureOpenGL.cpp:103-107 | the frame search uses a strict comparison against the cumulative timestamps | timestamps 0, 100, 200 at time 0 or 100: frame 2 is shown | show the frame whose interval contains the time | not executed | AnimatedTexture.SelectFrameAsWritten, AnimatedTexture.FirstFrameSkippedAsWritten | AnimatedTexture.SelectFrame, AnimatedTexture.SelectFrameCovers, AnimatedTexture.AnimatedTextureOpenGL.AnimateTexture |
| ViroRenderer/VROBodyTrackerController.cpp:720-727 | the tracked state is Full when the number of cached joints equals the number of bound joints | a cache holding the unbound Top joint in place of the missing left ankle: Full is reported where Limited is meant | Full exactly when every bound joint is cached | not executed | BodyTrackerController.TrackedStateAsWritten, BodyTrackerController.AsWrittenReportsFullWithMissingJoint | BodyTrackerController.TrackedStateFor, BodyTrackerController.ProcessFrame, BodyTrackerController.ProcessedFrameFacts, BodyTrackerController.Controller.ProcessJoints |
| ViroRenderer/VROBodyTrackerController.cpp:926-940 | every joint window is averaged, including one emptied by trimming, and the average reads its first entry | a joint lost for longer than the dampening period: its window is empty and is still averaged | skip empty windows | not executed | BodyTrackerController.SmoothedAsWritten, BodyTrackerController.AsWrittenAveragesEmptyWindow | BodyTrackerController.Smoothed, BodyTrackerController.DampenStep, BodyTrackerController.Controller.DampenCachedJoints |
| ViroRenderer/capi/Texture_JNI.cpp:123-147 | createJTexture passes the texture's width for both the width and the height | a 4 x 2 texture: the Java texture reports height 4 | pass the height as the height | not executed | TextureJNI.CreateJTextureAsWritten, TextureJNI.CreateJTextureLosesHeight | TextureJNI.CreateJTexture, TextureJNI.JTextureOf |
| android/app/src/main/java/com/viro/core/ParticleEmitter.java:922-924 | getEmissionRatePerMeter returns the per-second rate | the defaults, 10 per second and 0 per meter: the per-meter getter gives (10, 10) | return the per-meter rate | not executed | ParticleEmitterJava.Emitter.EmissionRatePerMeterAsWritten, ParticleEmitterJava.RatePerMeterAsWrittenIsPerSecond | ParticleEmitterJava.Emitter.SetEmissionRatePerMeter |
| android/app/src/main/java/com/viro/core/ParticleEmitter.java:1136-1155 | setRotationModifier takes the length of the modifier's interval array, which is null for a modifier without intervals | a rotation modifier with no interval added: a NullPointerException is thrown and nothing reaches native code | a modifier without intervals converts to one without intervals, the rotation on the z axis | not executed | ParticleEmitterJava.Emitter.SetRotationModifierAsWritten | ParticleEmitterJava.Emitter.SetRotationModifier |
| android/app/src/main/java/com/viro/core/ParticleEmitter.java:1059-1082 | setSpawnVolume sends the volume to native code but does not keep it for its getter | setting a sphere volume: the getter still reports the previous one | keep the volume the setter was given | not executed | ParticleEmitterJava.Emitter.SetSpawnVolumeAsWritten | ParticleEmitterJava.Emitter.SetSpawnVolume |
| android/app/src/main/java/com/viro/core/PhysicsBody.java:74-86 | the constructor sends the mass to native code but never stores it in the field the getter reads | a dynamic body of mass 2: getMass reports 0 | store the mass | not executed | PhysicsBodyJava.PhysicsBody.CreateAsWritten, PhysicsBodyJava.MassLostAsWritten | PhysicsBodyJava.PhysicsBody.constructor |
| android/app/src/main/java/com/viro/core/PhysicsBody.java:230-241 | setUseGravity tells the native body but does not update the field getUseGravity reads | turning gravity off: getUseGravity still answers true | update the field too | not executed | PhysicsBodyJava.PhysicsBody.SetUseGravityAsWritten, PhysicsBodyJava.GravityIgnoredAsWritten | PhysicsBodyJava.PhysicsBody.SetUseGravityTo |
| android/app/src/main/java/com/viro/core/PhysicsBody.java:359-369 | setCollisionListener installs a listener only when no native delegate exists yet, so a second listener is ignored | set listener A, then listener B: collisions still go to A | the latest listener receives collisions | not executed | PhysicsBodyJava.PhysicsBody.SetCollisionListenerAsWritten, PhysicsBodyJava.ReplacedListenerIgnoredAsWritten | PhysicsBodyJava.PhysicsBody.SetCollisionListener, PhysicsBodyJava.ReplacedListenerCalled |
| android/app/src/main/java/com/viro/core/ViroMediaRecorder.java:291-293 | prepareAndroidMediaRecorder sets mIsRecording and then calls mRecorder.start() outside the try, so an exception from start() escapes with the flag set, before startRecordingAsync stores the file name and error delegate | a prepared recorder whose start() throws: the recorder stays marked recording with no file, and every later startRecordingAsync answers ALREADY_RUNNING | catch the failure, report INITIALIZATION and leave the recorder idle | not executed | MediaRecorderJava.MediaRecorder.StartThrowsAsWritten | MediaRecorderJava.MediaRecorder.PrepareAndroidMediaRecorder, MediaRecorderJava.MediaRecorder.StartRecordingAsync |
