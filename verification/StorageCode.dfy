/** The storage calls of a publisher. Between and during them the other processes go on; every change
    the publisher makes is a step of the protocol, taken while it holds the lock where publishes
    take it. */
module StorageCode {
  import opened Paths
  import opened PublishProtocol
  import opened SharedWorld
  import L = LockProtocol

  datatype GetResult = NotFound | GetError | Torn | Object(text: string)

  class Storage {
    const world: World

    constructor (world: World)
      ensures this.world == world
    {
      this.world := world;
    }

    /** The publisher may work: it holds the lock, or publishes do not take it. */
    ghost predicate Open()
      reads world
    {
      world.Valid() && if world.setting.locking then world.Pc().Holding? else world.Pc() == L.Idle
    }

    function Objects(): Store
      reads world
    {
      world.joint.repo.store
    }

    /** The others go on, for any length of time. */
    method Wait()
      requires Open()
      modifies world`joint, world`history, world`time
      ensures Open() && world.Undisturbed()
    {
      var duration: nat :| true;
      world.Others(world.Clock() + duration);
    }

    /** One step of this publisher. */
    method Do(job: Job, store: Store, stage: Stage, ghost a: Action)
      requires Open()
      requires Next(world.setting.tools, world.joint.repo, Move(world.me, a),
                    Repo(store, world.joint.repo.publishers[world.me := Publisher(job, stage)]))
      requires FitsAction(a, world.LastFault())
      modifies world`joint, world`history
      ensures Open() && world.Mine(Publisher(job, stage)) && Objects() == store
      ensures if DeedOf(a).Some? then world.Did([DeedOf(a).value]) else world.SameStart()
    {
      world.Publish(Repo(store, world.joint.repo.publishers[world.me := Publisher(job, stage)]), a);
    }

    /** Giving up with an error. */
    method Abort(job: Job, ghost stage: Stage)
      requires Open() && world.Mine(Publisher(job, stage)) && GoodJob(job) && !stage.Finished? && !stage.Failed?
      requires IsFailure(world.LastFault())
      modifies world`joint, world`history
      ensures Open() && world.SameStart() && world.Mine(Publisher(job, Failed))
    {
      Do(job, Objects(), Failed, Fail);
    }

    /** A call that puts data at place. When it fails, it may have taken effect all the same, and the
        publish has failed; but for the Release file, which ends it. */
    method Put(place: Place, data: string, job: Job, next: Stage, ghost stage: Stage, ghost a: Action)
      returns (ok: bool)
      requires Open() && world.Mine(Publisher(job, stage)) && GoodJob(job)
      requires PutsAt(world.setting.tools, job, stage, a, place, data, next)
      modifies world
      ensures Open() && world.calls == old(world.calls) + 1 && ok == !IsFailure(world.LastFault())
      ensures if a.Activate? && world.LastFault() != Fails then world.Did([Released(a.now)]) else world.SameStart()
      ensures world.Mine(Publisher(job, if ok || (next.Finished? && world.LastFault() == Lands) then next else Failed))
    {
      Wait();
      var fault := world.Call();
      ok := !IsFailure(fault);
      if fault != Fails {
        TakeEffect(place, data, job, next, stage, a);
      } else {
        Wait();
        Abort(job, stage);
      }
    }

    /** The put takes effect, though its answer may be an error. */
    method TakeEffect(place: Place, data: string, job: Job, next: Stage, ghost stage: Stage, ghost a: Action)
      requires Open() && world.Mine(Publisher(job, stage)) && GoodJob(job) && world.LastFault() != Fails
      requires PutsAt(world.setting.tools, job, stage, a, place, data, next)
      modifies world`joint, world`history, world`time
      ensures Open() && if a.Activate? then world.Did([Released(a.now)]) else world.SameStart()
      ensures world.Mine(Publisher(job, if world.LastFault() == Lands && !next.Finished? then Failed else next))
    {
      PutIsStep(world.setting.tools, world.joint.repo, world.me, job, stage, a, place, data, next);
      Do(job, Objects()[place := data], next, a);
      Wait();
      if world.LastFault() == Lands && !next.Finished? { Abort(job, next); }
    }

    /** Reading an object: its text; an error, or a broken read, only where the call went wrong. */
    method Get(place: Place) returns (r: GetResult)
      requires Open()
      modifies world
      ensures Open() && world.Undisturbed() && world.calls == old(world.calls) + 1
      ensures r == if IsFailure(world.LastFault()) then GetError
                   else if place !in Objects() then NotFound
                   else if world.LastFault() == BreaksOff then Torn
                   else Object(Objects()[place])
    {
      Wait();
      var fault := world.Call();
      if IsFailure(fault) { r := GetError; }
      else if place !in Objects() { r := NotFound; }
      else if fault == BreaksOff { r := Torn; }
      else { r := Object(Objects()[place]); }
    }
  }

  /** The put of data at place is the action a of a publisher at this stage, and next comes after it. */
  ghost predicate PutsAt(t: Tools, job: Job, stage: Stage, a: Action, place: Place, data: string, next: Stage)
    requires GoodJob(job)
  {
    match a
    case Upload =>
      && stage.Uploading? && stage.done < |job.batch| && next == Uploading(stage.done + 1)
      && place == PoolPlace(job.component, job.batch[stage.done].control) && data == job.batch[stage.done].bytes
    case WriteIndex =>
      && stage.Writing? && stage.written < 4 && next == StageAfterWrite(t, job, stage)
      && place == IndexPlace(job, stage.arch, ExtAt(stage.written)) && data == t.pack(ExtAt(stage.written), stage.text)
    case Activate(_, _, _, text) =>
      && CanAct(t, map[], Publisher(job, stage), a) && next == Finished
      && place == ReleaseFile(job.codename) && data == text
    case _ => false
  }

  lemma PutIsStep(t: Tools, r: Repo, w: string, job: Job, stage: Stage, a: Action, place: Place, data: string,
                  next: Stage)
    requires GoodJob(job) && PutsAt(t, job, stage, a, place, data, next)
    requires w in r.publishers && r.publishers[w] == Publisher(job, stage)
    ensures Next(t, r, Move(w, a), Repo(r.store[place := data], r.publishers[w := Publisher(job, next)]))
  {
  }
}
