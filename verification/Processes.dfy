/** Pages and processes (kernal/include/Page.h, kernal/include/Process.h,
    kernal/Process_scheduling/Process.cpp).

    The simulator keeps both by value in its vectors, so they are values here; the methods that
    edit one in place become functions to the edited value.  Times are whole ticks. */
module Processes {

  /** `touched` is a history field: the tick of the last hit on, or load of, this frame. */
  datatype Page = Page(firstUse: nat, lifeTime: nat, value: nat, pid: nat,
                       lastTimeUsed: int, referenced: bool, touched: int)
  {
    /** What a lookup compares. */
    function Key(): (nat, nat) {
      (value, pid)
    }

    /** What a page is, as opposed to the bookkeeping done on it. */
    function Identity(): (nat, nat, nat, nat) {
      (firstUse, lifeTime, value, pid)
    }
  }

  const NO_PAGE := Page(0, 0, 0, 0, 0, false, 0)

  /** One input tuple of StartSimulation. */
  datatype Job = Job(pid: nat, submission: int, priority: int, execution: int, block: int, pages: seq<Page>)

  /** `readmitted` is a history field: the process came back from suspension, so its
      submission time was stamped a second time. */
  datatype Process = Process(pid: nat, submission: int, priority: int, remaining: int, block: int, total: int,
                             waiting: int, response: int, turnaround: int, timesExecuted: int,
                             firstTicket: nat, lastTicket: nat, pages: seq<Page>, readmitted: bool)
  {
    function DecrementBlockTime(): Process {
      if block > 0 then this.(block := block - 1) else this
    }

    /** decrementExecutionTime followed by decrementPageLifeTime. */
    function RunTick(): Process {
      var p := if remaining > 0 then this.(remaining := remaining - 1) else this;
      if p.pages != [] && p.pages[0].lifeTime > 0 then
        p.(pages := p.pages[0 := p.pages[0].(lifeTime := p.pages[0].lifeTime - 1)])
      else p
    }

    function Stamp(now: int): Process {
      this.(submission := now)
    }

    /** setTurnaroundTime and setWaitingTime at termination. */
    function Finish(now: int): Process {
      this.(turnaround := now - submission, waiting := now - (submission + total))
    }

    /** getPage: the page it returns and the process it leaves behind. */
    function GetPage(): (r: (Process, Page)) {
      if pages == [] || pages[0].firstUse > total - remaining then (this, NO_PAGE)
      else if pages[0].lifeTime > 0 then (this, pages[0])
      else
        var p := this.(pages := pages[1..]);
        (p, if p.pages != [] && p.pages[0].lifeTime > 0 then p.pages[0] else NO_PAGE)
    }

    /** What a short-term policy must not touch. */
    predicate SameJob(p: Process) {
      p == this.(waiting := p.waiting, response := p.response, timesExecuted := p.timesExecuted,
                 firstTicket := p.firstTicket, lastTicket := p.lastTicket)
    }
  }

  function Create(j: Job): Process {
    Process(j.pid, j.submission, j.priority, j.execution, j.block, j.execution, -1, -1, 0, 0, 0, 0, j.pages, false)
  }

  /** What getPage does, whatever the list: the head goes exactly when its use has begun and it has
      no life left, nothing else changes, and the page returned is the head of what remains if that
      is alive and either moved up in this call or has begun. */
  lemma GetPageDrops(p: Process)
    ensures var (q, page) := p.GetPage();
            var begun := p.pages != [] && p.pages[0].firstUse <= p.total - p.remaining;
            && q == p.(pages := if begun && p.pages[0].lifeTime == 0 then p.pages[1..] else p.pages)
            && (page.lifeTime > 0 <==> q.pages != [] && q.pages[0].lifeTime > 0 && begun)
            && page == (if page.lifeTime > 0 then q.pages[0] else NO_PAGE)
  {
  }

  /** A call that returns a live page leaves the process so that every later call leaves it
      alone and returns one and the same page: the live page, or no page when the call had
      to drop an expired one first and the next page's first use is still ahead. */
  lemma GetPageSettles(p: Process)
    requires p.GetPage().1.lifeTime > 0
    ensures var q := p.GetPage().0;
            && q.pages != [] && p.GetPage().1 == q.pages[0]
            && q.GetPage().0 == q
            && q.GetPage().1 == (if q.pages[0].firstUse > q.total - q.remaining then NO_PAGE else q.pages[0])
            && (q.GetPage().1 == NO_PAGE ==> |q.pages| == |p.pages| - 1)
  {
  }
}
