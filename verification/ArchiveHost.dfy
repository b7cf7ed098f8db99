/**
 The host the L2 archive deployer works on (scripts/deploy-l2-archive.py): the release link, the
 two unit files, the timer, the installation and intent records, and the commands that change
 them. A command may fail with or without its effect, and the process may die at any of them.
 */
module ArchiveHost {
  import opened Basics

  type Target = string
  type Content = string

  datatype Installation = Installation(current: Target, previous: Option<Target>)

  datatype Phase = Prepared | InitPending | CheckPending | RemoteVerified | Complete

  datatype Intent = Intent(
    oldTarget: Option<Target>,
    newTarget: Target,
    phase: Phase,
    initializationAttempted: bool,
    candidate: Option<Target>)

  /** What the deployer answers for: link, unit files, timer and installation record. */
  datatype System = System(
    current: Option<Target>,
    service: Option<Content>,
    timer: Option<Content>,
    enabled: bool,
    active: bool,
    installed: Option<Installation>)

  /** How a step ended: done, raised an error, or the process died. */
  datatype Status = Done | Raised | Crashed {
    predicate IsFailure() { !Done? }

    function PropagateFailure(): Status
      requires IsFailure()
    {
      this
    }
  }

  /** The unit files of a release, as installed. */
  datatype Units = Units(service: Content, timer: Content)

  class Host {
    const unitsOf: Target -> Units     // unit files held by a staged release
    var current: Option<Target>        // the `current` link
    var next: Option<Target>           // the `.current.new` link
    var service: Option<Content>
    var timer: Option<Content>
    var loaded: bool                   // systemd has loaded the timer's definition
    var enabled: bool
    var active: bool
    var installed: Option<Installation>
    var intent: Option<Intent>
    var releases: set<Target>          // release directories that exist
    ghost var inits: seq<Target>       // remote initialisations issued, oldest first

    ghost function Seen(): System
      reads this
    {
      System(current, service, timer, enabled, active, installed)
    }

    /** Everything but the system the deployer answers for. */
    ghost predicate SameLedger(intent: Option<Intent>, releases: set<Target>, inits: seq<Target>)
      reads this
    {
      this.intent == intent && this.releases == releases && this.inits == inits
    }

    constructor (unitsOf: Target -> Units)
      ensures this.unitsOf == unitsOf
      ensures Seen() == System(None, None, None, false, false, None) && SameLedger(None, {}, [])
      ensures next.None? && !loaded
    {
      this.unitsOf := unitsOf;
      current, next, service, timer, installed, intent := None, None, None, None, None, None;
      loaded, enabled, active, releases, inits := false, false, false, {}, [];
    }

    method Outcome() returns (landed: bool, s: Status)
      ensures s == Done ==> landed
    {
      landed, s := *, *;
      if !landed && s == Done { s := Raised; }
    }

    method StopTimer() returns (s: Status)
      modifies this`active
      ensures active == old(active) || !active
      ensures s == Done ==> !active
    {
      var landed;
      landed, s := Outcome();
      if landed { active := false; }
    }

    method StartTimer() returns (s: Status)
      modifies this`active
      ensures active == old(active) || active
      ensures s == Done ==> active
    {
      var landed;
      landed, s := Outcome();
      if landed { active := true; }
    }

    method EnableTimer(on: bool) returns (s: Status)
      modifies this`enabled
      ensures enabled == old(enabled) || enabled == on
      ensures s == Done ==> enabled == on
    {
      var landed;
      landed, s := Outcome();
      if landed { enabled := on; }
    }

    /** Stopping the archive job itself changes nothing the deployer answers for. */
    method StopService() returns (s: Status) {
      s := *;
    }

    /** `change_current`: make the new link beside the old one, then rename it over. */
    method ChangeCurrent(target: Target) returns (s: Status)
      modifies this`current, this`next
      ensures current == old(current) || current == Some(target)
      ensures s == Done ==> current == Some(target) && next.None?
      ensures next == old(next) || next == Some(target) || next.None?
    {
      if next.Some? {
        return Raised;
      }
      var landed;
      landed, s := Outcome();
      if landed { next := Some(target); }
      if s != Done { return; }
      landed, s := Outcome();
      if landed { current, next := Some(target), None; }
    }

    /** `/usr/bin/install` of one unit file: a failure may leave anything behind. */
    method InstallService(content: Content) returns (s: Status)
      modifies this`service
      ensures s == Done ==> service == Some(content)
    {
      s := *;
      if s == Done { service := Some(content); } else { service := *; }
    }

    method InstallTimer(content: Content) returns (s: Status)
      modifies this`timer
      ensures s == Done ==> timer == Some(content)
    {
      s := *;
      if s == Done { timer := Some(content); } else { timer := *; }
    }

    method RemoveService() returns (s: Status)
      modifies this`service
      ensures s == Done ==> service.None?
    {
      var landed;
      landed, s := Outcome();
      if landed { service := None; }
    }

    method RemoveTimer() returns (s: Status)
      modifies this`timer
      ensures s == Done ==> timer.None?
    {
      var landed;
      landed, s := Outcome();
      if landed { timer := None; }
    }

    method DaemonReload() returns (s: Status)
      modifies this`loaded
      ensures loaded == old(loaded) || loaded == timer.Some?
      ensures s == Done ==> loaded == timer.Some?
    {
      var landed;
      landed, s := Outcome();
      if landed { loaded := timer.Some?; }
    }

    /** `systemctl show` of the timer: a loaded definition is reported, one that has merely been
        written may be, and an absent one is not. */
    method TimerView() returns (s: Status, isLoaded: bool, isActive: bool)
      ensures s == Done && loaded ==> isLoaded
      ensures s == Done && isLoaded ==> loaded || timer.Some?
      ensures s == Done ==> isActive == active
    {
      s, isLoaded, isActive := *, *, active;
      if loaded { isLoaded := true; } else if timer.None? { isLoaded := false; }
    }

    method SaveInstalled(i: Installation) returns (s: Status)
      modifies this`installed
      ensures installed == old(installed) || installed == Some(i)
      ensures s == Done ==> installed == Some(i)
    {
      var landed;
      landed, s := Outcome();
      if landed { installed := Some(i); }
    }

    method RemoveInstalled() returns (s: Status)
      modifies this`installed
      ensures s == Done ==> installed.None?
    {
      var landed;
      landed, s := Outcome();
      if landed { installed := None; }
    }

    method SaveIntent(i: Intent) returns (s: Status)
      modifies this`intent
      ensures intent == old(intent) || intent == Some(i)
      ensures s == Done ==> intent == Some(i)
    {
      var landed;
      landed, s := Outcome();
      if landed { intent := Some(i); }
    }

    /** Reading files, asking GitHub, appending to the audit log: may fail, changes nothing here. */
    method Check() returns (s: Status) {
      s := *;
    }

    /** `archive_units`: the installed units are exactly those of the release, or there are none. */
    method Inspect(release: Option<Target>) returns (s: Status, isEnabled: bool, isActive: bool)
      ensures s == Done ==> isEnabled == enabled && isActive == active
      ensures s == Done && release.None? ==> service.None? && timer.None? && !loaded
      ensures s == Done && release.Some? ==>
                && service == Some(unitsOf(release.value).service) && timer == Some(unitsOf(release.value).timer)
    {
      s, isEnabled, isActive := *, enabled, active;
      if s == Done {
        match release
        case None =>
          if service.Some? || timer.Some? || loaded { s := Raised; }
        case Some(t) =>
          if service != Some(unitsOf(t).service) || timer != Some(unitsOf(t).timer) || !loaded { s := Raised; }
      }
    }
  }
}
