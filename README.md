# Editor shell of a small 3D engine, modelled in Dafny

The engine's editor is an immediate-mode overlay drawn once per frame. This
project models the parts of it that are plain sequential logic:

- **Sample histories** (`history.dfy`, module `SampleHistory`). The Hardware
  menu keeps two histograms, `frames` and `miliseconds`, each a window of at
  most 100 samples. While a window holds fewer than 100 samples the new one is
  appended. Once it is full, an index loop moves every sample one slot left and
  the new one goes in the last slot. `Record` is that loop. `Advance` is its
  reference definition. `Replay` gives the window after any run of pushes.
- **Editor shell** (`module_ui.dfy`, module `Editor`). The class `ModuleUI`
  holds the ordered panel list, the exit-confirmation flag, the ImGui-settings
  flag, the Fullscreen and Vsync flags and both histories. Each menu block of
  the menu bar is one method, called in bar order by `MenuBar`. `MainMenu` runs
  the menu bar, then the settings window and the exit popup. `DrawPanels` is
  the per-frame panel pass and `CleanUp` is shutdown. A `MenuInput` value says
  what the user clicked in a frame. Confirming the exit ends the process; the
  model returns `exited` and keeps the state of that moment.
- **Request mailbox** (`application.dfy`, module `App`). The `Application`
  object has four one-shot request flags and their setters. It also has the
  public `pause` and `backToOriginal` flags that the Play/Pause/Stop menu
  writes. `Mailbox`, `Raise` and `RaiseAll` are the same flags as values, so
  lemmas can say that repeated requests collapse into one.
- **Scene-hierarchy walk** (`hierarchy.dfy`, module `Hierarchy`). The scene
  tree is a `GameObject` datatype. Node identity (a pointer in the engine) is
  an `id`. `ProcessGameObject` is the recursive, pre-order walk that emits one
  tree item per node, with Dear ImGui's tree-node flag bits. It changes the
  scene's selection while it runs. A `Gui` value of oracle functions answers
  the GUI library's questions: is an item open, was it left-clicked, was it
  right-clicked. `Walk` is the reference definition of the walk. The lemmas
  state the visit order, the flags of every item, the selection at every
  moment, and which clicks matter.

Two behaviours of the code that the model reproduces as written:

- Clicks are handled only inside the branch where the node's tree item is
  open (Hierarchy.cpp:69-83). A click on a collapsed item does nothing.
- The exit popup's window is opened with the flag `exitTrue`, not `exitPopUp`
  (ModuleUI.cpp:398). Its title-bar close button therefore does not close the
  popup. The model gives that button no effect.

## Model

| member | source | states |
|---|---|---|
| `SampleHistory.Advance` | ModuleUI.cpp:220-231 | after an update the history is non-empty and its last slot holds the new sample |
| `SampleHistory.Record` | ModuleUI.cpp:220-231 | below 100 samples the new sample is appended; at 100 or more the length stays the same, `r[i-1] == s[i]` for every shifted index and the last slot holds the new sample; the result equals `Advance` |
| `SampleHistory.ReplayKeepsNewest` | ModuleUI.cpp:220-233 | starting from empty, after any pushes the history holds exactly the newest min(n, 100) samples in push order, never more than 100, and is non-empty once a sample was pushed |
| `SampleHistory.AdvanceBounded` | ModuleUI.cpp:220-231 | an update keeps a history of at most 100 samples at most 100 long and makes it non-empty |
| `Editor.ModuleUI.constructor` | ModuleUI.cpp:23-34 | seven distinct fresh panels in the order About, Hierarchy, Inspector, Console, Project, Editor, SceneView; `aboutMenu` is the first; Fullscreen and Vsync off; both histories empty |
| `Editor.ModuleUI.DrawPanels` | ModuleUI.cpp:85-91 | the panels drawn are exactly the active ones, each once, in list order |
| `Editor.ModuleUI.CleanUp` | ModuleUI.cpp:113-118 | every panel is cleaned up once, in list order, and the list is left empty |
| `Editor.ModuleUI.OpenExitPopUp` | ModuleUI.cpp:134-137 | "Exit engine" raises the exit-confirmation flag and changes nothing else |
| `Editor.ModuleUI.RemainInEngine` | ModuleUI.cpp:407-410 | "Remain in the Engine" lowers the exit-confirmation flag and changes nothing else |
| `Editor.ModuleUI.ExitPopUp` | ModuleUI.cpp:395-413 | while the popup is shown, confirming ends the process with the state unchanged, and "Remain" closes the popup; while it is hidden nothing happens |
| `Editor.ModuleUI.ExitMenu` | ModuleUI.cpp:132-140 | the confirmation flag is raised exactly when it was raised or "Exit engine" was chosen |
| `Editor.Panel.SwitchActive` | ModuleUI.cpp:145-148 | the About panel's active flag is negated |
| `Editor.ModuleUI.HelpMenu` | ModuleUI.cpp:142-164 | "About..." flips the About panel's active flag and touches no other panel |
| `Editor.ModuleUI.ConfigurationMenu` | ModuleUI.cpp:165-177 | each item raises its configuration request flag; the other flags are unchanged |
| `Editor.ModuleUI.ToggleGuiPreferences` | ModuleUI.cpp:211-214 | "ImGui Settings" negates `showGUIPreferences`, so two toggles restore it |
| `Editor.ModuleUI.WindowMenu` | ModuleUI.cpp:178-217 | a clicked Fullscreen or Vsync checkbox flips its flag, and "ImGui Settings" flips the settings flag |
| `Editor.ModuleUI.HardwareMenu` | ModuleUI.cpp:218-248 | while the menu is open both histories take one update each, stay within 100 samples and are non-empty, which the histogram's `&frames[0]` needs |
| `Editor.ModuleUI.Play` | ModuleUI.cpp:337-341 | Play sets `pause` and `backToOriginal` both false |
| `Editor.ModuleUI.Pause` | ModuleUI.cpp:342-345 | Pause sets `pause` and leaves `backToOriginal` unchanged |
| `Editor.ModuleUI.Stop` | ModuleUI.cpp:346-350 | Stop sets `pause` and `backToOriginal` both true |
| `Editor.ModuleUI.RunMenu` | ModuleUI.cpp:335-354 | the items applied in menu order: Stop or Pause leave the engine paused, Play alone unpauses; only Stop and Play change `backToOriginal` |
| `Editor.ModuleUI.SceneMenu` | ModuleUI.cpp:356-368 | each item raises its scene request flag; the other flags are unchanged |
| `Editor.ModuleUI.SettingsWindow` | ModuleUI.cpp:388-393 | the settings window's close button lowers `showGUIPreferences`, which stays lowered when it already was |
| `Editor.ModuleUI.MenuBarHead` | ModuleUI.cpp:132-217 | the Exit, Help, Configuration and Window menus in bar order: the confirmation flag, the About panel, the configuration requests, Fullscreen, Vsync and the settings flag, each as its menu leaves it |
| `Editor.ModuleUI.MenuBarTail` | ModuleUI.cpp:218-368 | the Hardware, Play/Pause/Stop and SAVE/LOAD scenes menus in bar order: both histories within 100 samples, the run-state flags and the scene requests, each as its menu leaves it |
| `Editor.ModuleUI.MenuBar` | ModuleUI.cpp:130-386 | the combined effect of the menus in bar order, field by field |
| `Editor.ModuleUI.MainMenu` | ModuleUI.cpp:127-416 | one frame of the menu bar: the process exits exactly when the popup is shown and confirmed; the new state of every flag, of both histories and of the request mailbox |
| `Editor.ModuleUI.Update` | ModuleUI.cpp:77-100 | one frame of the shell: the exit outcome and the new state of the About panel, every flag, both histories and the request mailbox, as `MainMenu` leaves them; then, unless the exit was confirmed, the panel pass drawing exactly the panels active in that new state, each once, in list order |
| `App.Application.constructor` | Application.h:57-61 | the scene request flags start lowered |
| `App.Application.SaveConfigRequest` | Application.h:77 | `saveRequest` becomes true and no other field changes |
| `App.Application.LoadConfigRequest` | Application.h:78 | `loadRequest` becomes true and no other field changes |
| `App.Application.SaveSceneRequest` | Application.h:79 | `saveSceneRequest` becomes true and no other field changes |
| `App.Application.LoadSceneRequest` | Application.h:80 | `loadSceneRequest` becomes true and no other field changes |
| `App.Raise` | Application.h:77-80 | a request raises its own flag and leaves the other three as they were |
| `App.RaiseIdempotent` | Application.h:77-80 | raising the same request twice gives the same mailbox as raising it once |
| `App.RequestsCollapse` | Application.h:57-80 | after any sequence of requests a flag is raised exactly when it was already raised or a request of its kind occurred, whatever the count and order |
| `App.SameKindsSameMailbox` | Application.h:57-80 | two bursts that request the same kinds leave the same mailbox, so repeated requests in a frame collapse into one |
| `Hierarchy.NodeFlags` | Hierarchy.cpp:54-68 | the flags always contain OpenOnArrow and SpanAvailWidth; they contain Leaf iff the node has no children, DefaultOpen iff it is the root, Selected iff it is the selection; no other bit is set |
| `Hierarchy.Scene.SelectItem` | Hierarchy.cpp:75 | the given node becomes the selection |
| `Hierarchy.ProcessGameObject` | Hierarchy.cpp:52-95 | the items emitted and the final selection equal `Walk` from the node with the selection it started with |
| `Hierarchy.Draw` | Hierarchy.cpp:18-29 | the panel walks the whole tree from the scene's root, as `Walk` says |
| `Hierarchy.WalkOrder` | Hierarchy.cpp:69-91 | the emitted nodes are the tree in pre-order, children in index order, entering a node's children exactly when its item is open, whatever the selection does |
| `Hierarchy.WalkChildrenOrder` | Hierarchy.cpp:85-91 | the children's walks, one after the other, list the children's open subtrees in index order |
| `Hierarchy.NoDescentBelowLeafOrClosed` | Hierarchy.cpp:69-91 | a leaf, and a node whose item is closed, emit only their own item |
| `Hierarchy.WalkVisitsEachOnce` | Hierarchy.cpp:52-95 | in a tree whose nodes are all distinct, a walk from the root emits every node it reaches exactly once |
| `Hierarchy.WalkFlagsAndSelection` | Hierarchy.cpp:54-81 | every emitted item has OpenOnArrow and SpanAvailWidth, Leaf iff its node has no children, DefaultOpen iff its node is the root, Selected iff its node is the selection at that moment (the last open non-root node clicked so far, else the initial selection); the walk ends with that selection |
| `Hierarchy.OnlyEffectiveClicksMatter` | Hierarchy.cpp:69-81 | two frames that agree on which items are open, and on which open non-root items either button clicked, give the same walk: clicks on the root or on closed items change nothing |
| `Hierarchy.LeftAndRightAlike` | Hierarchy.cpp:73-81 | clicking the same items with the left or with the right button gives the same walk |
| `Hierarchy.RootClickIgnored` | Hierarchy.cpp:71 | removing every click on the root leaves the walk unchanged |
| `Hierarchy.OpenLeafWalk` | Hierarchy.cpp:57-81 | an open non-root leaf emits one item, with Leaf set and DefaultOpen clear, and becomes the selection when either button clicked it |
| `Hierarchy.ScenarioFirstFrame` | Hierarchy.cpp:52-95 | root with children A (a leaf) and B, and B with child C, all open: clicking A lists root, A, B, C and selects A |
| `Hierarchy.ScenarioSecondFrame` | Hierarchy.cpp:52-95 | in the next frame A is drawn selected, C is not, and clicking C moves the selection to C |

## Left out

- All Dear ImGui, SDL and OpenGL calls: context setup and shutdown, frame begin and end, rendering, docking, style, the histogram plots and the GPU strings (ModuleUI.cpp:44-67, 80-96, 120-122). Their answers are the `MenuInput` and `Gui` oracle values.
- `PreUpdate` and `PostUpdate` of ModuleUI only return true, and `ConsoleLogs` forwards to the console panel, whose code is not part of this model.
- The Width, Height and Brightness sliders (ModuleUI.cpp:198-210). The range clamping is done inside ImGui, and brightness is a float.
- The window calls `SetFullscreen` and `Vsync` made after the checkboxes flip their flags. The window module is not part of this model.
- The Documentation, Download and Bug-report items, which open a browser, and the CPU, RAM and SDL-version queries (ModuleUI.cpp:149-160, 252-263). These call into the operating system.
- The Resizable and Full Desktop checkboxes (ModuleUI.cpp:189-197) flip the `resizable` and `FullDesktop` flags that ModuleUI.cpp names unqualified; their `if` bodies are empty, nothing modelled reads those flags, and their declaration is not part of this model. The render-option checkboxes (ModuleUI.cpp:267-300) flip the renderer's attribute flags, and the renderer is not part of this model.
- The GameObjects, Basic Shapes and Particles menus (ModuleUI.cpp:301-385). The scene and loader code they call is not part of this model.
- `Hierarchy::PopUpOptions` (Hierarchy.cpp:31-50). Its items have empty bodies and nothing calls it.
- The sample values. Frame rates and frame times are `real` values that no modelled logic inspects.
- Editor.Panel.SwitchActive: the UI base class is not part of this model. The model assumes `switchActive` negates the panel's active flag and that `IsActive` (used by the panel pass, ModuleUI.cpp:87) returns that flag.
- Hierarchy.Scene.constructor: the scene module, which sets the first selection, is not part of this model. The model assumes a new scene starts with nothing selected.
- Hierarchy.Scene.SelectItem: the scene module is not part of this model. The model assumes `SelectItem` makes its argument the selection.
- Editor.ModuleUI.constructor: the panel constructors other than the Hierarchy panel's, and the first values of `exitPopUp` and `showGUIPreferences`, are not part of this model, so they are parameters.
- App.Application.constructor: `debug`, `pause`, `backToOriginal`, `saveRequest` and `loadRequest` get their first values in Application.cpp, which is not part of this model, so they are parameters.
- Editor.ModuleUI.CleanUp: the panels' own `CleanUp` bodies and their deletion are not modelled; the method returns the panels in the order they are cleaned up. Using `aboutMenu` after shutdown would be a use after free, which the model does not represent.
- The panel pass does not run the panels' `Draw` bodies; it returns which panels are drawn. The Hierarchy panel's body is modelled on its own as `Hierarchy.Draw`.
- The module lifecycle of `Application` (`Init`, `Update`, `CleanUp`) and the consumption of the request flags. Application.h only declares them.
- Hierarchy.ProcessGameObject: item labels are the nodes' names, and `TreePop` is not modelled.
