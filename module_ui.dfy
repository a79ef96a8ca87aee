/** The editor shell (ModuleUI): the ordered list of editor panels, the
    per-frame panel pass, the shutdown of the panels, and the state the main
    menu bar changes — the exit confirmation, the ImGui-settings window, the
    About panel, the Fullscreen and Vsync checkboxes, the two sample
    histories of the Hardware menu, and the run-state and request flags of
    the Application.

    The menu bar's GUI calls are not computed here: a `MenuInput` value says
    which items and buttons the user activated in a frame, whether the
    Hardware menu is open, and the two samples of that frame. */
module Editor {
  import SampleHistory
  import App

  /** The kinds of editor panel, in the order the shell creates them. */
  datatype PanelKind = About | HierarchyView | Inspector | Console | Project | EditorView | SceneView

  function PanelOrder(): seq<PanelKind>
  {
    [About, HierarchyView, Inspector, Console, Project, EditorView, SceneView]
  }

  /** A histogram sample (a frame rate or a frame time); its value plays no
      part in the logic modelled here. */
  type Sample = real

  /** An editor panel; it is drawn each frame while it is active. */
  class Panel {
    const kind: PanelKind
    var active: bool

    constructor (kind: PanelKind, active: bool)
      ensures this.kind == kind && this.active == active
    {
      this.kind := kind;
      this.active := active;
    }

    /** Show a hidden panel, hide a shown one. */
    method SwitchActive()
      modifies this`active
      ensures active == !old(active)
    {
      active := !active;
    }
  }

  /** What the user did with the menu bar in one frame. */
  datatype MenuInput = MenuInput(
    exitEngine: bool,         // Exit > "Exit engine"
    about: bool,              // Help > "About..."
    saveConfig: bool,         // Configuration > "Save Configuration"
    loadConfig: bool,         // Configuration > "Load Configuration"
    fullscreen: bool,         // Window > "Fullscreen" checkbox clicked
    vsync: bool,              // Window > "Vsync" checkbox clicked
    guiSettings: bool,        // Window > "ImGui Settings"
    hardwareOpen: bool,       // the Hardware menu is open this frame
    framerate: Sample,        // this frame's frame rate
    deltaTime: Sample,        // this frame's frame time
    play: bool,               // Play/Pause/Stop > "Play"
    pauseEngine: bool,        // Play/Pause/Stop > "Pause the Edge Engine"
    stop: bool,               // Play/Pause/Stop > "Stop and get back to Original State"
    saveScene: bool,          // SAVE/LOAD scenes > "SAVE"
    loadScene: bool,          // SAVE/LOAD scenes > "LOAD"
    closeSettings: bool,      // close button of the ImGui Settings window
    confirmExit: bool,        // exit popup > "Exit Engine"
    remain: bool)             // exit popup > "Remain in the Engine"

  class ModuleUI {
    var menus: seq<Panel>
    var aboutMenu: Panel
    var exitPopUp: bool
    var showGUIPreferences: bool
    var fullscreen: bool
    var vsync: bool
    var frames: seq<Sample>
    var miliseconds: seq<Sample>

    /** Both sample histories stay within their capacity. */
    ghost predicate Valid()
      reads this
    {
      |frames| <= SampleHistory.Capacity && |miliseconds| <= SampleHistory.Capacity
    }

    /** The shell creates its seven panels in a fixed order, About first;
        the Hierarchy panel starts active. The other panels' constructors
        are not part of this model, so whether they start active is a
        parameter, and so are the first values of the exit and settings
        flags. Fullscreen and Vsync start off and the histories empty. */
    constructor (startsActive: PanelKind -> bool, exitPopUp: bool, showGUIPreferences: bool)
      ensures Valid()
      ensures |menus| == |PanelOrder()|
      ensures forall i :: 0 <= i < |menus| ==> menus[i].kind == PanelOrder()[i] && fresh(menus[i])
      ensures forall i, j :: 0 <= i < j < |menus| ==> menus[i] != menus[j]
      ensures aboutMenu == menus[0]
      ensures menus[1].active
      ensures forall i :: 0 <= i < |menus| && i != 1 ==> menus[i].active == startsActive(menus[i].kind)
      ensures this.exitPopUp == exitPopUp && this.showGUIPreferences == showGUIPreferences
      ensures !fullscreen && !vsync && frames == [] && miliseconds == []
    {
      var about := new Panel(About, startsActive(About));
      var hierarchy := new Panel(HierarchyView, true);
      var inspector := new Panel(Inspector, startsActive(Inspector));
      var console := new Panel(Console, startsActive(Console));
      var project := new Panel(Project, startsActive(Project));
      var editor := new Panel(EditorView, startsActive(EditorView));
      var sceneView := new Panel(SceneView, startsActive(SceneView));
      menus := [about, hierarchy, inspector, console, project, editor, sceneView];
      aboutMenu := about;
      this.exitPopUp := exitPopUp;
      this.showGUIPreferences := showGUIPreferences;
      fullscreen := false;
      vsync := false;
      frames := [];
      miliseconds := [];
    }

    /** The panel pass of a frame: the indices of the panels drawn, in the
        order they are drawn. Exactly the active panels are drawn, each once,
        in list order. */
    method DrawPanels() returns (drawn: seq<nat>)
      ensures forall k :: 0 <= k < |drawn| ==> drawn[k] < |menus| && menus[drawn[k]].active
      ensures forall k, l :: 0 <= k < l < |drawn| ==> drawn[k] < drawn[l]
      ensures forall i :: 0 <= i < |menus| && menus[i].active ==> i in drawn
    {
      drawn := [];
      var i := 0;
      while i < |menus|
        invariant 0 <= i <= |menus|
        invariant forall k :: 0 <= k < |drawn| ==> drawn[k] < i && menus[drawn[k]].active
        invariant forall k, l :: 0 <= k < l < |drawn| ==> drawn[k] < drawn[l]
        invariant forall j :: 0 <= j < i && menus[j].active ==> j in drawn
      {
        if menus[i].active {
          drawn := drawn + [i];
        }
        i := i + 1;
      }
    }

    /** Shutdown: every panel is cleaned up once, in list order, and the
        list is emptied. Returns the panels in the order they were cleaned
        up. */
    method CleanUp() returns (cleaned: seq<Panel>)
      modifies this`menus
      ensures cleaned == old(menus)
      ensures menus == []
    {
      cleaned := [];
      var i := 0;
      while i < |menus|
        invariant 0 <= i <= |menus|
        invariant cleaned == menus[..i]
      {
        cleaned := cleaned + [menus[i]];
        i := i + 1;
      }
      menus := [];
    }

    /** Exit > "Exit engine": ask for confirmation. */
    method OpenExitPopUp()
      modifies this`exitPopUp
      ensures exitPopUp
    {
      exitPopUp := true;
    }

    /** Exit popup > "Remain in the Engine": close the popup, nothing else. */
    method RemainInEngine()
      requires exitPopUp
      modifies this`exitPopUp
      ensures !exitPopUp
    {
      exitPopUp := false;
    }

    /** Window > "ImGui Settings": show the settings window if hidden, hide
        it if shown, so that two toggles restore it. */
    method ToggleGuiPreferences()
      modifies this`showGUIPreferences
      ensures showGUIPreferences == !old(showGUIPreferences)
    {
      showGUIPreferences := !showGUIPreferences;
    }

    /** Play/Pause/Stop > "Play": run, and do not go back to the original
        state. */
    static method Play(app: App.Application)
      modifies app`pause, app`backToOriginal
      ensures !app.pause && !app.backToOriginal
    {
      app.pause := false;
      app.backToOriginal := false;
    }

    /** Play/Pause/Stop > "Pause the Edge Engine": pause, leaving the
        back-to-original flag as it was. */
    static method Pause(app: App.Application)
      modifies app`pause
      ensures app.pause
    {
      app.pause := true;
    }

    /** Play/Pause/Stop > "Stop and get back to Original State". */
    static method Stop(app: App.Application)
      modifies app`pause, app`backToOriginal
      ensures app.pause && app.backToOriginal
    {
      app.pause := true;
      app.backToOriginal := true;
    }

    /** Exit menu. */
    method ExitMenu(input: MenuInput)
      modifies this`exitPopUp
      ensures exitPopUp == (old(exitPopUp) || input.exitEngine)
    {
      if input.exitEngine {
        OpenExitPopUp();
      }
    }

    /** Help menu: "About..." shows or hides the About panel. */
    method HelpMenu(input: MenuInput)
      modifies aboutMenu`active
      ensures aboutMenu.active == (old(aboutMenu.active) != input.about)
    {
      if input.about {
        aboutMenu.SwitchActive();
      }
    }

    /** Configuration menu: raise the save and load configuration requests. */
    static method ConfigurationMenu(app: App.Application, input: MenuInput)
      modifies app`saveRequest, app`loadRequest
      ensures app.saveRequest == (old(app.saveRequest) || input.saveConfig)
      ensures app.loadRequest == (old(app.loadRequest) || input.loadConfig)
    {
      if input.saveConfig {
        app.SaveConfigRequest();
      }
      if input.loadConfig {
        app.LoadConfigRequest();
      }
    }

    /** Window menu: a checkbox flips its flag when clicked; "ImGui
        Settings" toggles the settings window. */
    method WindowMenu(input: MenuInput)
      modifies this`fullscreen, this`vsync, this`showGUIPreferences
      ensures fullscreen == (old(fullscreen) != input.fullscreen)
      ensures vsync == (old(vsync) != input.vsync)
      ensures showGUIPreferences == (old(showGUIPreferences) != input.guiSettings)
    {
      if input.fullscreen {
        fullscreen := !fullscreen;
      }
      if input.vsync {
        vsync := !vsync;
      }
      if input.guiSettings {
        ToggleGuiPreferences();
      }
    }

    /** Hardware menu, while open: one sample into each history. */
    method HardwareMenu(input: MenuInput)
      requires Valid()
      modifies this`frames, this`miliseconds
      ensures Valid()
      ensures frames == if input.hardwareOpen then SampleHistory.Advance(old(frames), input.framerate) else old(frames)
      ensures miliseconds == if input.hardwareOpen then SampleHistory.Advance(old(miliseconds), input.deltaTime) else old(miliseconds)
      ensures input.hardwareOpen ==> frames != [] && miliseconds != []
    {
      if input.hardwareOpen {
        SampleHistory.AdvanceBounded(frames, input.framerate);
        SampleHistory.AdvanceBounded(miliseconds, input.deltaTime);
        frames := SampleHistory.Record(frames, input.framerate);
        miliseconds := SampleHistory.Record(miliseconds, input.deltaTime);
      }
    }

    /** Play/Pause/Stop menu, its items in menu order. */
    static method RunMenu(app: App.Application, input: MenuInput)
      modifies app`pause, app`backToOriginal
      ensures app.pause == if input.pauseEngine || input.stop then true
                           else if input.play then false
                           else old(app.pause)
      ensures app.backToOriginal == if input.stop then true
                                    else if input.play then false
                                    else old(app.backToOriginal)
    {
      if input.play {
        Play(app);
      }
      if input.pauseEngine {
        Pause(app);
      }
      if input.stop {
        Stop(app);
      }
    }

    /** SAVE/LOAD scenes menu: raise the save and load scene requests. */
    static method SceneMenu(app: App.Application, input: MenuInput)
      modifies app`saveSceneRequest, app`loadSceneRequest
      ensures app.saveSceneRequest == (old(app.saveSceneRequest) || input.saveScene)
      ensures app.loadSceneRequest == (old(app.loadSceneRequest) || input.loadScene)
    {
      if input.saveScene {
        app.SaveSceneRequest();
      }
      if input.loadScene {
        app.LoadSceneRequest();
      }
    }

    /** The ImGui Settings window, while shown: its close button hides it. */
    method SettingsWindow(input: MenuInput)
      modifies this`showGUIPreferences
      ensures showGUIPreferences == (old(showGUIPreferences) && !input.closeSettings)
    {
      if showGUIPreferences && input.closeSettings {
        showGUIPreferences := false;
      }
    }

    /** The exit popup, while shown: "Exit Engine" ends the process (the
        result is true and nothing changes), "Remain in the Engine" closes
        the popup. */
    method ExitPopUp(input: MenuInput) returns (exited: bool)
      modifies this`exitPopUp
      ensures exited == (old(exitPopUp) && input.confirmExit)
      ensures exitPopUp == (old(exitPopUp) && (exited || !input.remain))
    {
      exited := false;
      if exitPopUp {
        if input.confirmExit {
          exited := true;
          return;
        }
        if input.remain {
          RemainInEngine();
        }
      }
    }

    /** The first four menus of the bar: Exit, Help, Configuration, Window. */
    method MenuBarHead(app: App.Application, input: MenuInput)
      modifies this`exitPopUp, this`showGUIPreferences, this`fullscreen, this`vsync
      modifies aboutMenu`active, app`saveRequest, app`loadRequest
      ensures exitPopUp == (old(exitPopUp) || input.exitEngine)
      ensures aboutMenu.active == (old(aboutMenu.active) != input.about)
      ensures fullscreen == (old(fullscreen) != input.fullscreen)
      ensures vsync == (old(vsync) != input.vsync)
      ensures showGUIPreferences == (old(showGUIPreferences) != input.guiSettings)
      ensures app.saveRequest == (old(app.saveRequest) || input.saveConfig)
      ensures app.loadRequest == (old(app.loadRequest) || input.loadConfig)
    {
      ExitMenu(input);
      HelpMenu(input);
      ConfigurationMenu(app, input);
      WindowMenu(input);
    }

    /** The last three menus of the bar: Hardware, Play/Pause/Stop, SAVE/LOAD scenes. */
    method MenuBarTail(app: App.Application, input: MenuInput)
      requires Valid()
      modifies this`frames, this`miliseconds
      modifies app`pause, app`backToOriginal, app`saveSceneRequest, app`loadSceneRequest
      ensures Valid()
      ensures frames == if input.hardwareOpen then SampleHistory.Advance(old(frames), input.framerate) else old(frames)
      ensures miliseconds == if input.hardwareOpen then SampleHistory.Advance(old(miliseconds), input.deltaTime) else old(miliseconds)
      ensures input.hardwareOpen ==> frames != [] && miliseconds != []
      ensures app.pause == if input.pauseEngine || input.stop then true
                           else if input.play then false
                           else old(app.pause)
      ensures app.backToOriginal == if input.stop then true
                                    else if input.play then false
                                    else old(app.backToOriginal)
      ensures app.saveSceneRequest == (old(app.saveSceneRequest) || input.saveScene)
      ensures app.loadSceneRequest == (old(app.loadSceneRequest) || input.loadScene)
    {
      HardwareMenu(input);
      RunMenu(app, input);
      SceneMenu(app, input);
    }

    /** The menus of the main menu bar, in bar order. */
    method MenuBar(app: App.Application, input: MenuInput)
      requires Valid()
      modifies this`exitPopUp, this`showGUIPreferences, this`fullscreen, this`vsync, this`frames, this`miliseconds
      modifies aboutMenu`active, app`pause, app`backToOriginal
      modifies app`saveRequest, app`loadRequest, app`saveSceneRequest, app`loadSceneRequest
      ensures Valid()
      ensures exitPopUp == (old(exitPopUp) || input.exitEngine)
      ensures aboutMenu.active == (old(aboutMenu.active) != input.about)
      ensures fullscreen == (old(fullscreen) != input.fullscreen)
      ensures vsync == (old(vsync) != input.vsync)
      ensures showGUIPreferences == (old(showGUIPreferences) != input.guiSettings)
      ensures frames == if input.hardwareOpen then SampleHistory.Advance(old(frames), input.framerate) else old(frames)
      ensures miliseconds == if input.hardwareOpen then SampleHistory.Advance(old(miliseconds), input.deltaTime) else old(miliseconds)
      ensures input.hardwareOpen ==> frames != [] && miliseconds != []
      ensures app.pause == if input.pauseEngine || input.stop then true
                           else if input.play then false
                           else old(app.pause)
      ensures app.backToOriginal == if input.stop then true
                                    else if input.play then false
                                    else old(app.backToOriginal)
      ensures app.saveRequest == (old(app.saveRequest) || input.saveConfig)
      ensures app.loadRequest == (old(app.loadRequest) || input.loadConfig)
      ensures app.saveSceneRequest == (old(app.saveSceneRequest) || input.saveScene)
      ensures app.loadSceneRequest == (old(app.loadSceneRequest) || input.loadScene)
    {
      MenuBarHead(app, input);
      MenuBarTail(app, input);
    }

    /** One frame of the main menu bar: the menus, then the ImGui Settings
        window and the exit popup when they are shown. Returns whether the
        user confirmed the exit, at which point the engine ends the process:
        the state is then the one of that moment. */
    method MainMenu(app: App.Application, input: MenuInput) returns (exited: bool)
      requires Valid()
      modifies this`exitPopUp, this`showGUIPreferences, this`fullscreen, this`vsync, this`frames, this`miliseconds
      modifies aboutMenu`active, app`pause, app`backToOriginal
      modifies app`saveRequest, app`loadRequest, app`saveSceneRequest, app`loadSceneRequest
      ensures Valid()
      ensures exited == ((old(exitPopUp) || input.exitEngine) && input.confirmExit)
      ensures exitPopUp == ((old(exitPopUp) || input.exitEngine) && (exited || !input.remain))
      ensures aboutMenu.active == (old(aboutMenu.active) != input.about)
      ensures fullscreen == (old(fullscreen) != input.fullscreen)
      ensures vsync == (old(vsync) != input.vsync)
      ensures showGUIPreferences == ((old(showGUIPreferences) != input.guiSettings) && !input.closeSettings)
      ensures frames == if input.hardwareOpen then SampleHistory.Advance(old(frames), input.framerate) else old(frames)
      ensures miliseconds == if input.hardwareOpen then SampleHistory.Advance(old(miliseconds), input.deltaTime) else old(miliseconds)
      ensures input.hardwareOpen ==> frames != [] && miliseconds != []
      ensures app.pause == if input.pauseEngine || input.stop then true
                           else if input.play then false
                           else old(app.pause)
      ensures app.backToOriginal == if input.stop then true
                                    else if input.play then false
                                    else old(app.backToOriginal)
      ensures app.Mail() ==
        App.Mailbox(old(app.saveRequest) || input.saveConfig, old(app.loadRequest) || input.loadConfig,
                    old(app.saveSceneRequest) || input.saveScene, old(app.loadSceneRequest) || input.loadScene)
    {
      MenuBar(app, input);
      SettingsWindow(input);
      exited := ExitPopUp(input);
    }

    /** One frame of the shell: the menu bar, then, unless the user
        confirmed the exit, the panel pass over the panels as the menu bar
        left them. */
    method Update(app: App.Application, input: MenuInput) returns (exited: bool, drawn: seq<nat>)
      requires Valid()
      modifies this`exitPopUp, this`showGUIPreferences, this`fullscreen, this`vsync, this`frames, this`miliseconds
      modifies aboutMenu`active, app`pause, app`backToOriginal
      modifies app`saveRequest, app`loadRequest, app`saveSceneRequest, app`loadSceneRequest
      ensures Valid()
      ensures exited == ((old(exitPopUp) || input.exitEngine) && input.confirmExit)
      ensures exitPopUp == ((old(exitPopUp) || input.exitEngine) && (exited || !input.remain))
      ensures aboutMenu.active == (old(aboutMenu.active) != input.about)
      ensures fullscreen == (old(fullscreen) != input.fullscreen)
      ensures vsync == (old(vsync) != input.vsync)
      ensures showGUIPreferences == ((old(showGUIPreferences) != input.guiSettings) && !input.closeSettings)
      ensures frames == if input.hardwareOpen then SampleHistory.Advance(old(frames), input.framerate) else old(frames)
      ensures miliseconds == if input.hardwareOpen then SampleHistory.Advance(old(miliseconds), input.deltaTime) else old(miliseconds)
      ensures input.hardwareOpen ==> frames != [] && miliseconds != []
      ensures app.pause == if input.pauseEngine || input.stop then true
                           else if input.play then false
                           else old(app.pause)
      ensures app.backToOriginal == if input.stop then true
                                    else if input.play then false
                                    else old(app.backToOriginal)
      ensures app.Mail() ==
        App.Mailbox(old(app.saveRequest) || input.saveConfig, old(app.loadRequest) || input.loadConfig,
                    old(app.saveSceneRequest) || input.saveScene, old(app.loadSceneRequest) || input.loadScene)
      ensures exited ==> drawn == []
      ensures forall k :: 0 <= k < |drawn| ==> drawn[k] < |menus| && menus[drawn[k]].active
      ensures forall k, l :: 0 <= k < l < |drawn| ==> drawn[k] < drawn[l]
      ensures !exited ==> forall i :: 0 <= i < |menus| && menus[i].active ==> i in drawn
    {
      drawn := [];
      exited := MainMenu(app, input);
      if !exited {
        drawn := DrawPanels();
      }
    }
  }
}
