/** The user video page and the display together: what a program that asked for the page
    sees through it, and draws on, is its own terminal's screen, displayed or not
    (student-distrib/paging.c:294-302, student-distrib/scheduling.c:110-119). */
module Drawing {
  import opened Base
  import opened FileSystem
  import opened Paging
  import opened Processes
  import opened Invariants
  import opened Runs
  import opened Differences
  import Answers
  import V = Display

  lemma ResumesShowing(img: Image, s: State, s': State, p: nat, back: Ebp)
    requires Inv(img, s) && Next(img, s, Tick) == Some((s', Resumed(p, back)))
    ensures p < SLOTS && Inv(img, s') && s'.cur < TERMINALS
    ensures s.pcbs[p].video ==>
              && s'.mapping.video
              && s'.mapping.videoFrame == VIDEO_FRAME + if s'.cur == s.active then 0 else s'.cur + 1
  {
    StepVideo(img, s, Tick);
    NextKeeps(img, s, Tick);
  }

  /** A process that asked for the page resumes while the display's memory depicts the three
      screens: byte `i` of the page it then finds at 132 MB is byte `i` of its own terminal's
      screen. Video memory starts at frame 0xB8, with the four pages of the display in order. */
  lemma ResumedSeesItsScreen(
      img: Image, s: State, s': State, p: nat, back: Ebp, display: V.Console, v: V.View, l: Layout, i: nat)
    requires Inv(img, s) && Next(img, s, Tick) == Some((s', Resumed(p, back)))
    requires p < SLOTS && s.pcbs[p].video && l.table0 != l.tableVideo && i < PAGE
    requires display.Depicts(v) && v.active == s.active
    ensures s'.cur < TERMINALS
    ensures SeesScreen(l, s'.mapping, display, v, s'.cur, i)
  {
    ResumesShowing(img, s, s', p, back);
    FrameHolds(l, s'.mapping, display, v, s'.cur, i);
  }

  /** Byte `i` of the page at 132 MB is byte `i` of terminal `t`'s screen. */
  ghost predicate SeesScreen(l: Layout, m: Mapping, display: V.Console, v: V.View, t: nat, i: nat)
    reads display, display.mem
    requires i < PAGE
  {
    match Answers.VideoByte(l, m, i)
    case None => false
    case Some(at) =>
      && VIDEO_FRAME * PAGE <= at < (VIDEO_FRAME + 4) * PAGE && at % PAGE == i
      && t < |v.screens| && display.Holds(at / PAGE - VIDEO_FRAME, v.screens[t].page)
  }

  lemma FrameHolds(l: Layout, m: Mapping, display: V.Console, v: V.View, t: nat, i: nat)
    requires l.table0 != l.tableVideo && i < PAGE && t < TERMINALS && display.Depicts(v)
    requires m.video && m.videoFrame == VIDEO_FRAME + if t == v.active then 0 else t + 1
    ensures SeesScreen(l, m, display, v, t, i)
  {
    Answers.VideoWalk(l, m, i);
    assert (m.videoFrame * PAGE + i) / PAGE == m.videoFrame && (m.videoFrame * PAGE + i) % PAGE == i;
    assert display.PageOf(t) == m.videoFrame - VIDEO_FRAME;
  }
}
