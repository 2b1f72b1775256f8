/** The CPU-side bookkeeping of the path tracer in the third test
    application: the job queue, the accumulation image, the reset that
    seeds one job per sample, the bounded drain that batches jobs for the
    ray caster, the chunking of a batch into work items, and the handling
    of the caster's results (deposit into the image or spawn secondary
    rays).

    Floats are reals. Camera rays, bounce directions and sky light come
    from oracles: `rayDir(x, y, k)` is the primary ray of sample k of pixel
    (x, y), `bounce(n)` the direction of the n-th secondary ray, and
    `light(d)` the sky colour seen along d. The ray caster itself is not
    part of this model; its results are an input. */
module PathTracing {
  import opened Vec
  import ErrorHandling

  /** Samples per pixel seeded by a reset. */
  const SamplesPerPixel: nat := 16

  /** The deepest bounce; a hit at this depth ends the path. */
  const MaxDepth: nat := 3

  /** `FLT_MAX`, the "no hit" distance. */
  const FltMax: real := 340282346638528859811704183484516925440.0

  /** `Path_Tracing_Job`. */
  datatype Job = Job(rayOrigin: Vec3, rayDir: Vec3, color: Vec3, pixelX: nat, pixelY: nat, weight: real, depth: nat)

  /** A ray caster result: the nearest hit distance (`FltMax` when none),
      its position and surface normal. */
  datatype Collision = Collision(t: real, position: Vec3, normal: Vec3)

  /** The collision a batch entry starts with. */
  const NoHit: Collision := Collision(FltMax, Origin, Origin)

  lemma AppendAssoc<T>(a: seq<T>, b: seq<T>, c: seq<T>)
    ensures (a + b) + c == a + (b + c)
  {
  }

  // ---------------------------------------------------------------------
  // The queue

  /** `Path_Tracing_Queue`: a deque that is pushed at the front and popped
      at the back, hence first in, first out. */
  class PathTracingQueue {
    /** The deque listed from its back (the oldest job, next out) to its
        front (the newest), that is, in the order the jobs come out. */
    var jobQueue: seq<Job>

    constructor ()
      ensures jobQueue == []
    {
      jobQueue := [];
    }

    /** `enqueue`: push at the front; the job comes out after every job
        already queued. */
    method Enqueue(job: Job)
      modifies this
      ensures jobQueue == old(jobQueue) + [job]
    {
      jobQueue := jobQueue + [job];
    }

    /** `dequeue`: pop at the back, which is the oldest job. The deque must
        not be empty. */
    method Dequeue() returns (job: Job)
      requires jobQueue != []
      modifies this
      ensures job == old(jobQueue)[0] && jobQueue == old(jobQueue)[1..]
    {
      job := jobQueue[0];
      jobQueue := jobQueue[1..];
    }

    /** `has_job`. */
    predicate HasJob()
      reads this
    {
      jobQueue != []
    }

    /** `reset`. */
    method Reset()
      modifies this
      ensures jobQueue == []
    {
      jobQueue := [];
    }
  }

  // ---------------------------------------------------------------------
  // The image

  /** The slot of pixel (x, y) in a pitch-less row-major image. */
  function PixelIndex(x: nat, y: nat, width: nat): nat {
    x + y * width
  }

  /** Pixels of a `width` by `height` image have distinct slots, all below
      `width * height`. */
  lemma PixelIndexInjective(x1: nat, y1: nat, x2: nat, y2: nat, width: nat, height: nat)
    requires x1 < width && x2 < width && y1 < height && y2 < height
    ensures PixelIndex(x1, y1, width) < width * height
    ensures PixelIndex(x1, y1, width) == PixelIndex(x2, y2, width) <==> x1 == x2 && y1 == y2
  {
    ErrorHandling.MulLe(y1, height - 1, width);
    if PixelIndex(x1, y1, width) == PixelIndex(x2, y2, width) {
      ErrorHandling.DivModUnique(PixelIndex(x1, y1, width), width, y1, x1);
      ErrorHandling.DivModUnique(PixelIndex(x2, y2, width), width, y2, x2);
    }
  }

  /** `data` with `v` added to the slot of pixel (x, y). */
  function AddAt(data: seq<Vec4>, width: nat, height: nat, x: nat, y: nat, v: Vec4): (out: seq<Vec4>)
    requires |data| == width * height && x < width && y < height
    ensures |out| == |data|
  {
    PixelIndexInjective(x, y, x, y, width, height);
    data[PixelIndex(x, y, width) := Add4(data[PixelIndex(x, y, width)], v)]
  }

  /** `Path_Tracing_Image`: `width * height` accumulators. */
  class PathTracingImage {
    var data: seq<Vec4>
    var width: nat
    var height: nat

    ghost predicate Valid()
      reads this
    {
      |data| == width * height
    }

    constructor ()
      ensures Valid() && data == [] && width == 0 && height == 0
    {
      data := [];
      width := 0;
      height := 0;
    }

    /** `init`: a cleared image of the given extent. */
    method Init(width: nat, height: nat)
      modifies this
      ensures Valid() && this.width == width && this.height == height
      ensures forall i :: 0 <= i < |data| ==> data[i] == Zero4
    {
      this.width := width;
      this.height := height;
      data := seq(width * height, _ => Zero4);
    }

    /** `get_value`: the accumulator of pixel (x, y). */
    function GetValue(x: nat, y: nat): (v: Vec4)
      reads this
      requires Valid() && x < width && y < height
      ensures PixelIndex(x, y, width) < |data| && v == data[PixelIndex(x, y, width)]
    {
      PixelIndexInjective(x, y, x, y, width, height);
      data[PixelIndex(x, y, width)]
    }

    /** `add_value`: adds `v` to pixel (x, y) and to no other pixel. */
    method AddValue(x: nat, y: nat, v: Vec4)
      requires Valid() && x < width && y < height
      modifies this`data
      ensures Valid()
      ensures GetValue(x, y) == Add4(old(GetValue(x, y)), v)
      ensures forall x': nat, y': nat :: x' < width && y' < height && (x', y') != (x, y) ==> GetValue(x', y') == old(GetValue(x', y'))
      ensures data == AddAt(old(data), width, height, x, y, v)
    {
      var i := PixelIndex(x, y, width);
      PixelIndexInjective(x, y, x, y, width, height);
      data := data[i := Add4(data[i], v)];
      forall x': nat, y': nat | x' < width && y' < height && (x', y') != (x, y)
        ensures GetValue(x', y') == old(GetValue(x', y'))
      {
        PixelIndexInjective(x, y, x', y', width, height);
      }
    }
  }

  // ---------------------------------------------------------------------
  // Draining the queue into a batch

  /** The batching loop of an iteration: the counter is bumped before each
      dequeue and the loop stops when it reaches `maxJobsPerIter`, so at
      most `maxJobsPerIter - 1` jobs are taken, oldest first, each with its
      direction, origin and a "no hit" collision in parallel arrays. */
  method Drain(q: PathTracingQueue, maxJobsPerIter: nat)
    returns (rayJobs: seq<Job>, rayDirs: seq<Vec3>, rayOrigins: seq<Vec3>, rayCollisions: seq<Collision>, jobsSoFar: nat)
    modifies q
    ensures |rayDirs| == |rayJobs| && |rayOrigins| == |rayJobs| && |rayCollisions| == |rayJobs|
    ensures forall k :: 0 <= k < |rayJobs| ==>
      rayDirs[k] == rayJobs[k].rayDir && rayOrigins[k] == rayJobs[k].rayOrigin && rayCollisions[k] == NoHit
    ensures rayJobs + q.jobQueue == old(q.jobQueue)
    ensures maxJobsPerIter == 0 || |old(q.jobQueue)| < maxJobsPerIter ==>
      q.jobQueue == [] && jobsSoFar == |rayJobs|
    ensures 0 < maxJobsPerIter <= |old(q.jobQueue)| ==>
      |rayJobs| == maxJobsPerIter - 1 && jobsSoFar == maxJobsPerIter
    ensures jobsSoFar > 0 <==> old(q.jobQueue) != []
  {
    rayJobs, rayDirs, rayOrigins, rayCollisions := [], [], [], [];
    jobsSoFar := 0;
    while q.HasJob()
      invariant |rayDirs| == |rayJobs| && |rayOrigins| == |rayJobs| && |rayCollisions| == |rayJobs|
      invariant forall k :: 0 <= k < |rayJobs| ==>
        rayDirs[k] == rayJobs[k].rayDir && rayOrigins[k] == rayJobs[k].rayOrigin && rayCollisions[k] == NoHit
      invariant rayJobs + q.jobQueue == old(q.jobQueue)
      invariant jobsSoFar == |rayJobs|
      invariant maxJobsPerIter == 0 || jobsSoFar < maxJobsPerIter
      decreases |q.jobQueue|
    {
      jobsSoFar := jobsSoFar + 1;
      if jobsSoFar == maxJobsPerIter {
        break;
      }
      ghost var before := q.jobQueue;
      var job := q.Dequeue();
      assert before == [job] + q.jobQueue;
      rayJobs := rayJobs + [job];
      rayDirs := rayDirs + [job.rayDir];
      rayOrigins := rayOrigins + [job.rayOrigin];
      rayCollisions := rayCollisions + [NoHit];
    }
  }

  // ---------------------------------------------------------------------
  // Resetting

  /** Every job lies on an image pixel and is at most `MaxDepth` bounces
      deep. */
  ghost predicate JobsWellFormed(jobs: seq<Job>, width: nat, height: nat) {
    forall t :: 0 <= t < |jobs| ==> jobs[t].pixelX < width && jobs[t].pixelY < height && jobs[t].depth <= MaxDepth
  }

  /** A queue is well formed exactly when both of its parts are. */
  lemma WellFormedAppend(a: seq<Job>, b: seq<Job>, width: nat, height: nat)
    ensures JobsWellFormed(a + b, width, height) <==> JobsWellFormed(a, width, height) && JobsWellFormed(b, width, height)
  {
    if JobsWellFormed(a + b, width, height) {
      forall t | 0 <= t < |a|
        ensures a[t].pixelX < width && a[t].pixelY < height && a[t].depth <= MaxDepth
      {
        assert a[t] == (a + b)[t];
      }
      forall t | 0 <= t < |b|
        ensures b[t].pixelX < width && b[t].pixelY < height && b[t].depth <= MaxDepth
      {
        assert b[t] == (a + b)[|a| + t];
      }
    }
    if JobsWellFormed(a, width, height) && JobsWellFormed(b, width, height) {
      forall t | 0 <= t < |a + b|
        ensures (a + b)[t].pixelX < width && (a + b)[t].pixelY < height && (a + b)[t].depth <= MaxDepth
      {
        if t >= |a| {
          assert (a + b)[t] == b[t - |a|];
        }
      }
    }
  }

  /** Job number t of a reset: rows top to bottom, pixels left to right in
      a row, `SamplesPerPixel` samples per pixel; a white, unit-weight,
      depth-0 primary ray from the camera. */
  function SeedJob(t: nat, width: nat, camPos: Vec3, rayDir: (nat, nat, nat) -> Vec3): (job: Job)
    requires width > 0
    ensures job.depth == 0 && job.weight == 1.0
  {
    var p := t / SamplesPerPixel;
    var x, y, k := p % width, p / width, t % SamplesPerPixel;
    Job(camPos, rayDir(x, y, k), Vec3(1.0, 1.0, 1.0), x, y, 1.0, 0)
  }

  /** Sample k of pixel (j, i) is job number `(i * width + j) * 16 + k`. */
  lemma SeedJobDecodes(i: nat, j: nat, k: nat, width: nat)
    requires j < width && k < SamplesPerPixel
    ensures var t := (i * width + j) * SamplesPerPixel + k;
      t % SamplesPerPixel == k && (t / SamplesPerPixel) % width == j && (t / SamplesPerPixel) / width == i
  {
    var t := (i * width + j) * SamplesPerPixel + k;
    ErrorHandling.DivModUnique(t, SamplesPerPixel, i * width + j, k);
    ErrorHandling.DivModUnique(i * width + j, width, i, j);
  }

  /** The jobs of a reset lie on the image. */
  lemma SeedJobsOnImage(t: nat, width: nat, height: nat, camPos: Vec3, rayDir: (nat, nat, nat) -> Vec3)
    requires t < SamplesPerPixel * width * height
    ensures width > 0
    ensures SeedJob(t, width, camPos, rayDir).pixelX < width && SeedJob(t, width, camPos, rayDir).pixelY < height
  {
    var p := t / SamplesPerPixel;
    assert p < width * height by {
      ErrorHandling.DivModUnique(t, SamplesPerPixel, p, t % SamplesPerPixel);
      if p >= width * height {
        ErrorHandling.MulLe(width * height, p, SamplesPerPixel);
      }
    }
  }

  /** `reset_path_tracing_state`: empties the queue, clears the image to
      the new extent and queues `SamplesPerPixel` primary rays per pixel. */
  method ResetPathTracingState(q: PathTracingQueue, img: PathTracingImage, width: nat, height: nat,
                               camPos: Vec3, rayDir: (nat, nat, nat) -> Vec3)
    modifies q, img
    ensures img.Valid() && img.width == width && img.height == height
    ensures forall i :: 0 <= i < |img.data| ==> img.data[i] == Zero4
    ensures |q.jobQueue| == SamplesPerPixel * width * height
    ensures forall t :: 0 <= t < |q.jobQueue| ==> width > 0 && q.jobQueue[t] == SeedJob(t, width, camPos, rayDir)
    ensures JobsWellFormed(q.jobQueue, width, height)
  {
    q.Reset();
    img.Init(width, height);
    ghost var cleared := img.data;
    var i := 0;
    while i < height
      invariant 0 <= i <= height
      invariant img.data == cleared && img.width == width && img.height == height
      invariant |q.jobQueue| == i * width * SamplesPerPixel
      invariant forall t :: 0 <= t < |q.jobQueue| ==> width > 0 && q.jobQueue[t] == SeedJob(t, width, camPos, rayDir)
    {
      var j := 0;
      while j < width
        invariant 0 <= j <= width
        invariant img.data == cleared && img.width == width && img.height == height
        invariant |q.jobQueue| == (i * width + j) * SamplesPerPixel
        invariant forall t :: 0 <= t < |q.jobQueue| ==> width > 0 && q.jobQueue[t] == SeedJob(t, width, camPos, rayDir)
      {
        var k := 0;
        while k < SamplesPerPixel
          invariant 0 <= k <= SamplesPerPixel
          invariant img.data == cleared && img.width == width && img.height == height
          invariant |q.jobQueue| == (i * width + j) * SamplesPerPixel + k
          invariant forall t :: 0 <= t < |q.jobQueue| ==> width > 0 && q.jobQueue[t] == SeedJob(t, width, camPos, rayDir)
        {
          SeedJobDecodes(i, j, k, width);
          q.Enqueue(Job(camPos, rayDir(j, i, k), Vec3(1.0, 1.0, 1.0), j, i, 1.0, 0));
          k := k + 1;
        }
        j := j + 1;
      }
      assert (i * width + width) * SamplesPerPixel == (i + 1) * width * SamplesPerPixel;
      i := i + 1;
    }
    assert i * width * SamplesPerPixel == SamplesPerPixel * width * height;
    forall t | 0 <= t < |q.jobQueue|
      ensures q.jobQueue[t].pixelX < width && q.jobQueue[t].pixelY < height && q.jobQueue[t].depth <= MaxDepth
    {
      SeedJobsOnImage(t, width, height, camPos, rayDir);
    }
  }

  // ---------------------------------------------------------------------
  // Cutting a batch into work items

  /** `JobDesc`: a work item's slice of the batch. */
  datatype JobDesc = JobDesc(offset: nat, size: nat)

  /** Ray t of the batch belongs to the slice `c`. */
  predicate Covers(c: JobDesc, t: nat) {
    c.offset <= t < c.offset + c.size
  }

  function Min(a: nat, b: nat): nat {
    if a < b then a else b
  }

  /** Flooring division against a multiple. */
  lemma FloorDivLe(a: nat, m: nat, d: nat)
    requires d > 0
    ensures a * d <= m <==> a <= m / d
  {
    var q, r := m / d, m % d;
    ErrorHandling.DivModUnique(m, d, q, r);
    if a <= q {
      ErrorHandling.MulLe(a, q, d);
    } else {
      ErrorHandling.MulLe(q + 1, a, d);
    }
  }

  /** Item k exists (k < ceil(n / d)) exactly when it starts inside the
      batch. */
  lemma ItemStartsInside(n: nat, d: nat, k: nat)
    requires d > 0
    ensures k < (n + d - 1) / d <==> k * d < n
  {
    FloorDivLe(k + 1, n + d - 1, d);
  }

  /** `chunks` lists item k of a batch of n rays cut `d` per item as the
      slice from `k * d` of `min(n - k * d, d)` rays. */
  predicate ItemsOf(chunks: seq<JobDesc>, n: nat, d: nat) {
    forall k :: 0 <= k < |chunks| ==> k * d < n && chunks[k] == JobDesc(k * d, Min(n - k * d, d))
  }

  /** The items are consecutive and end at n. */
  lemma ItemsConsecutive(chunks: seq<JobDesc>, n: nat, d: nat, k: nat)
    requires d > 0 && |chunks| == (n + d - 1) / d && ItemsOf(chunks, n, d) && k < |chunks|
    ensures 0 < chunks[k].size <= d
    ensures chunks[k].offset + chunks[k].size == if k + 1 < |chunks| then chunks[k + 1].offset else n
  {
    ItemStartsInside(n, d, k + 1);
    assert (k + 1) * d == k * d + d;
  }

  /** Ray t lies in item `t / d`. */
  lemma ItemCovers(chunks: seq<JobDesc>, n: nat, d: nat, t: nat)
    requires d > 0 && |chunks| == (n + d - 1) / d && ItemsOf(chunks, n, d) && t < n
    ensures t / d < |chunks| && Covers(chunks[t / d], t)
  {
    var k := t / d;
    ErrorHandling.DivModUnique(t, d, k, t % d);
    ItemStartsInside(n, d, k);
  }

  /** Only item `t / d` holds ray t, and only rays below n are held. */
  lemma ItemUnique(chunks: seq<JobDesc>, n: nat, d: nat, k: nat, t: nat)
    requires d > 0 && ItemsOf(chunks, n, d) && k < |chunks| && Covers(chunks[k], t)
    ensures t < n && k == t / d
  {
    ErrorHandling.DivModUnique(t, d, k, t - k * d);
  }

  /** The items tile a batch of n rays, at most d per item: they are
      non-empty and consecutive, the last ends at n, each ray lies in item
      `t / d`, and no item holds a ray of another item or beyond n. */
  ghost predicate Tiling(chunks: seq<JobDesc>, n: nat, d: nat)
    requires d > 0
  {
    && (forall k :: 0 <= k < |chunks| ==> 0 < chunks[k].size <= d)
    && (forall k :: 0 <= k < |chunks| ==>
         chunks[k].offset + chunks[k].size == if k + 1 < |chunks| then chunks[k + 1].offset else n)
    && (forall t :: 0 <= t < n ==> t / d < |chunks| && Covers(chunks[t / d], t))
    && (forall k: nat, t: nat :: k < |chunks| && Covers(chunks[k], t) ==> t < n && k == t / d)
  }

  /** `ceil(n / d)` items laid out by `ItemsOf` tile the batch. */
  lemma ItemsTile(chunks: seq<JobDesc>, n: nat, d: nat)
    requires d > 0 && |chunks| == (n + d - 1) / d && ItemsOf(chunks, n, d)
    ensures Tiling(chunks, n, d)
  {
    forall k | 0 <= k < |chunks|
      ensures 0 < chunks[k].size <= d
      ensures chunks[k].offset + chunks[k].size == if k + 1 < |chunks| then chunks[k + 1].offset else n
    {
      ItemsConsecutive(chunks, n, d, k);
    }
    forall t | 0 <= t < n
      ensures t / d < |chunks| && Covers(chunks[t / d], t)
    {
      ItemCovers(chunks, n, d, t);
    }
    forall k: nat, t: nat | k < |chunks| && Covers(chunks[k], t)
      ensures t < n && k == t / d
    {
      ItemUnique(chunks, n, d, k, t);
    }
  }

  /** The work items of a batch of n rays, `jobsPerItem` per item: as many
      items as `ceil(n / jobsPerItem)`, item i starting at
      `i * jobsPerItem` and holding `min(n - offset, jobsPerItem)` rays,
      so that they tile the batch. */
  method MakeChunks(n: nat, jobsPerItem: nat) returns (chunks: seq<JobDesc>)
    requires jobsPerItem > 0
    ensures |chunks| == (n + jobsPerItem - 1) / jobsPerItem
    ensures ItemsOf(chunks, n, jobsPerItem)
    ensures Tiling(chunks, n, jobsPerItem)
  {
    var count := (n + jobsPerItem - 1) / jobsPerItem;
    chunks := [];
    var i := 0;
    while i < count
      invariant 0 <= i <= count && |chunks| == i
      invariant ItemsOf(chunks, n, jobsPerItem)
    {
      ItemStartsInside(n, jobsPerItem, i);
      chunks := chunks + [JobDesc(i * jobsPerItem, Min(n - i * jobsPerItem, jobsPerItem))];
      i := i + 1;
    }
    ItemsTile(chunks, n, jobsPerItem);
  }

  // ---------------------------------------------------------------------
  // Casting a batch, work item by work item

  /** The ray-casting pass over a drained batch: each work item casts the
      rays of its slice (`cast` is the nearest hit over the scene), so
      with items that tile the batch every ray is cast exactly once. */
  method CastBatch(rayOrigins: seq<Vec3>, rayDirs: seq<Vec3>, rayCollisions: seq<Collision>,
                   chunks: seq<JobDesc>, jobsPerItem: nat, cast: (Vec3, Vec3) -> Collision)
    returns (cols: seq<Collision>)
    requires |rayDirs| == |rayOrigins| && |rayCollisions| == |rayOrigins| && jobsPerItem > 0
    requires ItemsOf(chunks, |rayOrigins|, jobsPerItem) && Tiling(chunks, |rayOrigins|, jobsPerItem)
    ensures |cols| == |rayOrigins|
    ensures forall t :: 0 <= t < |cols| ==> cols[t] == cast(rayOrigins[t], rayDirs[t])
  {
    var n := |rayOrigins|;
    cols := rayCollisions;
    if n > 0 {
      assert 0 / jobsPerItem < |chunks|;
    }
    var i := 0;
    ghost var done := if 0 < |chunks| then chunks[0].offset else n;
    while i < |chunks|
      invariant 0 <= i <= |chunks| && |cols| == n
      invariant done == if i < |chunks| then chunks[i].offset else n
      invariant done <= n
      invariant forall t :: 0 <= t < done ==> cols[t] == cast(rayOrigins[t], rayDirs[t])
    {
      var desc := chunks[i];
      var t := desc.offset;
      while t < desc.offset + desc.size
        invariant desc.offset <= t <= desc.offset + desc.size && |cols| == n
        invariant desc.offset + desc.size <= n
        invariant forall u :: 0 <= u < t ==> cols[u] == cast(rayOrigins[u], rayDirs[u])
      {
        cols := cols[t := cast(rayOrigins[t], rayDirs[t])];
        t := t + 1;
      }
      assert desc.offset + desc.size == if i + 1 < |chunks| then chunks[i + 1].offset else n;
      i := i + 1;
      done := if i < |chunks| then chunks[i].offset else n;
    }
  }

  // ---------------------------------------------------------------------
  // Handling the results

  datatype Option<T> = None | Some(value: T)

  /** `4 / (1 << depth)`: the number of secondary rays a hit at `depth`
      spawns. */
  function SecondaryCount(depth: nat): int
    requires depth < 32
  {
    4 / ErrorHandling.Pow2(depth)
  }

  /** A hit spawns 4, 2 and 1 secondary rays at depths 0, 1 and 2, and
      none from `MaxDepth` on. */
  lemma SecondaryCountValues(depth: nat)
    requires depth < 32
    ensures SecondaryCount(depth) == if depth < MaxDepth then 4 / (if depth == 0 then 1 else if depth == 1 then 2 else 4) else 0
  {
    if depth >= MaxDepth {
      ErrorHandling.Pow2Monotone(MaxDepth, depth);
      assert ErrorHandling.Pow2(MaxDepth) == 8;
      ErrorHandling.DivModUnique(4, ErrorHandling.Pow2(depth), 0, 4);
    } else if depth == 0 {
      assert ErrorHandling.Pow2(0) == 1;
    } else if depth == 1 {
      assert ErrorHandling.Pow2(1) == 2;
    } else {
      assert ErrorHandling.Pow2(2) == 4;
    }
  }

  /** Secondary ray number c of the n a hit spawns: it starts at the hit
      point along bounce direction number `draw + c`, one level deeper,
      with the parent's weight split evenly and halved. */
  function Secondary(job: Job, col: Collision, bounce: nat -> Vec3, draw: nat, n: nat, c: nat): Job
    requires n > 0
  {
    job.(rayDir := bounce(draw + c), rayOrigin := col.position,
         weight := job.weight * (1.0 / n as real * 0.5), depth := job.depth + 1)
  }

  /** The first k of the n secondary rays of a hit, in the order they are
      queued. */
  function SecondariesUpTo(job: Job, col: Collision, bounce: nat -> Vec3, draw: nat, n: nat, k: nat): (kids: seq<Job>)
    requires k <= n
    ensures |kids| == k
  {
    if k == 0 then [] else SecondariesUpTo(job, col, bounce, draw, n, k - 1) + [Secondary(job, col, bounce, draw, n, k - 1)]
  }

  /** Ray c of the first k secondaries is secondary ray number c. */
  lemma {:induction false} SecondariesUpToAt(job: Job, col: Collision, bounce: nat -> Vec3, draw: nat, n: nat, k: nat, c: nat)
    requires c < k <= n
    ensures SecondariesUpTo(job, col, bounce, draw, n, k)[c] == Secondary(job, col, bounce, draw, n, c)
    decreases k
  {
    if c < k - 1 {
      SecondariesUpToAt(job, col, bounce, draw, n, k - 1, c);
    }
  }

  /** The secondary rays of a hit that is not at `MaxDepth`: all
      `SecondaryCount(depth)` of them. */
  function Secondaries(job: Job, col: Collision, bounce: nat -> Vec3, draw: nat): (kids: seq<Job>)
    requires job.depth < 32
  {
    var n := SecondaryCount(job.depth);
    if n <= 0 then [] else SecondariesUpTo(job, col, bounce, draw, n, n)
  }

  /** What a result adds to its pixel: a hit at `MaxDepth` adds its weight
      to the alpha channel alone, a miss adds the sky light scaled by the
      weight, and any other hit adds nothing (it spawns rays instead). */
  function DepositOf(job: Job, col: Collision, light: Vec3 -> Vec4): Option<Vec4> {
    if col.t < FltMax then
      if job.depth == MaxDepth then Some(Vec4(0.0, 0.0, 0.0, job.weight)) else None
    else
      Some(Scale4(light(job.rayDir), job.weight))
  }

  /** Every job of the batch lies on the image and is shallow enough for
      `1 << depth` to be defined. */
  ghost predicate OnImage(jobs: seq<Job>, width: nat, height: nat) {
    forall t :: 0 <= t < |jobs| ==> jobs[t].pixelX < width && jobs[t].pixelY < height && jobs[t].depth < 32
  }

  /** The image after one result is deposited. */
  function Deposit(data: seq<Vec4>, width: nat, height: nat, job: Job, col: Collision, light: Vec3 -> Vec4): (out: seq<Vec4>)
    requires |data| == width * height && job.pixelX < width && job.pixelY < height
    ensures |out| == |data|
  {
    match DepositOf(job, col, light)
    case None => data
    case Some(v) => AddAt(data, width, height, job.pixelX, job.pixelY, v)
  }

  /** The image after the first k results have been deposited. */
  ghost function Deposited(data: seq<Vec4>, width: nat, height: nat, jobs: seq<Job>, cols: seq<Collision>,
                           light: Vec3 -> Vec4, k: nat): (out: seq<Vec4>)
    requires k <= |jobs| == |cols| && |data| == width * height && OnImage(jobs, width, height)
    ensures |out| == |data|
  {
    if k == 0 then data
    else Deposit(Deposited(data, width, height, jobs, cols, light, k - 1), width, height, jobs[k - 1], cols[k - 1], light)
  }

  /** The rays one result spawns: the secondary rays of a hit that is not
      at `MaxDepth`, none otherwise. */
  function SpawnOf(job: Job, col: Collision, bounce: nat -> Vec3, draw: nat): seq<Job>
    requires job.depth < 32
  {
    if col.t < FltMax && job.depth != MaxDepth then Secondaries(job, col, bounce, draw) else []
  }

  /** The rays spawned by the first k results, in order, the first one
      taking bounce direction number `draw`. */
  function Spawned(jobs: seq<Job>, cols: seq<Collision>, bounce: nat -> Vec3, draw: nat, k: nat): seq<Job>
    requires k <= |jobs| == |cols|
    requires forall t :: 0 <= t < |jobs| ==> jobs[t].depth < 32
  {
    if k == 0 then []
    else
      var before := Spawned(jobs, cols, bounce, draw, k - 1);
      before + SpawnOf(jobs[k - 1], cols[k - 1], bounce, draw + |before|)
  }

  /** The (k+1)-th result applies its deposit to the image left by the
      first k and appends its spawned rays after theirs. */
  lemma HandleStep(data: seq<Vec4>, current: seq<Vec4>, width: nat, height: nat, jobs: seq<Job>, cols: seq<Collision>,
                   light: Vec3 -> Vec4, k: nat)
    requires k < |jobs| == |cols| && |data| == width * height && OnImage(jobs, width, height)
    requires current == Deposited(data, width, height, jobs, cols, light, k)
    ensures jobs[k].pixelX < width && jobs[k].pixelY < height && |current| == width * height
    ensures Deposit(current, width, height, jobs[k], cols[k], light) == Deposited(data, width, height, jobs, cols, light, k + 1)
  {
  }

  /** The queue after the (k+1)-th result: the queue after the first k
      with that result's spawned rays appended, which take the bounce
      directions after theirs. */
  lemma QueueStep(queue: seq<Job>, current: seq<Job>, jobs: seq<Job>, cols: seq<Collision>, bounce: nat -> Vec3,
                  draw: nat, drawNow: nat, k: nat)
    requires k < |jobs| == |cols| && forall t :: 0 <= t < |jobs| ==> jobs[t].depth < 32
    requires current == queue + Spawned(jobs, cols, bounce, draw, k)
    requires drawNow == draw + |Spawned(jobs, cols, bounce, draw, k)|
    ensures current + SpawnOf(jobs[k], cols[k], bounce, drawNow) == queue + Spawned(jobs, cols, bounce, draw, k + 1)
    ensures drawNow + |SpawnOf(jobs[k], cols[k], bounce, drawNow)| == draw + |Spawned(jobs, cols, bounce, draw, k + 1)|
  {
    var before := Spawned(jobs, cols, bounce, draw, k);
    var kids := SpawnOf(jobs[k], cols[k], bounce, drawNow);
    assert Spawned(jobs, cols, bounce, draw, k + 1) == before + kids;
    AppendAssoc(queue, before, kids);
  }

  /** One pass of the result-handling loop: a hit at `MaxDepth` or a miss
      adds its deposit to the job's pixel; any other hit queues its
      secondary rays, each taking the next bounce direction. */
  method HandleResult(q: PathTracingQueue, img: PathTracingImage, job: Job, minCol: Collision,
                      light: Vec3 -> Vec4, bounce: nat -> Vec3, draw: nat)
    returns (draw': nat)
    requires img.Valid() && job.pixelX < img.width && job.pixelY < img.height && job.depth < 32
    modifies q, img`data
    ensures img.Valid()
    ensures img.data == Deposit(old(img.data), img.width, img.height, job, minCol, light)
    ensures q.jobQueue == old(q.jobQueue) + SpawnOf(job, minCol, bounce, draw)
    ensures draw' == draw + |SpawnOf(job, minCol, bounce, draw)|
  {
    draw' := draw;
    if minCol.t < FltMax {
      if job.depth == MaxDepth {
        img.AddValue(job.pixelX, job.pixelY, Vec4(0.0, 0.0, 0.0, job.weight));
      } else {
        var secondaryN := SecondaryCount(job.depth);
        SecondaryCountValues(job.depth);
        var c := 0;
        while c < secondaryN
          invariant 0 <= c <= secondaryN
          invariant q.jobQueue == old(q.jobQueue) + SecondariesUpTo(job, minCol, bounce, draw, secondaryN, c)
          invariant draw' == draw + c
          invariant img.data == old(img.data)
        {
          var newJob := job.(rayDir := bounce(draw'), rayOrigin := minCol.position,
                             weight := job.weight * (1.0 / secondaryN as real * 0.5), depth := job.depth + 1);
          AppendAssoc(old(q.jobQueue), SecondariesUpTo(job, minCol, bounce, draw, secondaryN, c), [newJob]);
          q.Enqueue(newJob);
          draw' := draw' + 1;
          c := c + 1;
        }
      }
    } else {
      img.AddValue(job.pixelX, job.pixelY, Scale4(light(job.rayDir), job.weight));
    }
  }

  /** Result number i of a batch, handled after the first i: the image and
      the queue move from their state after i results to their state
      after i + 1. */
  method HandleNext(q: PathTracingQueue, img: PathTracingImage, rayJobs: seq<Job>, rayCollisions: seq<Collision>,
                    light: Vec3 -> Vec4, bounce: nat -> Vec3, draw: nat, i: nat,
                    ghost data0: seq<Vec4>, ghost queue0: seq<Job>, drawNow: nat)
    returns (draw': nat)
    requires i < |rayJobs| == |rayCollisions| && img.Valid() && OnImage(rayJobs, img.width, img.height)
    requires |data0| == img.width * img.height
    requires img.data == Deposited(data0, img.width, img.height, rayJobs, rayCollisions, light, i)
    requires q.jobQueue == queue0 + Spawned(rayJobs, rayCollisions, bounce, draw, i)
    requires drawNow == draw + |Spawned(rayJobs, rayCollisions, bounce, draw, i)|
    modifies q, img`data
    ensures img.Valid()
    ensures img.data == Deposited(data0, img.width, img.height, rayJobs, rayCollisions, light, i + 1)
    ensures q.jobQueue == queue0 + Spawned(rayJobs, rayCollisions, bounce, draw, i + 1)
    ensures draw' == draw + |Spawned(rayJobs, rayCollisions, bounce, draw, i + 1)|
  {
    ghost var image, current := img.data, q.jobQueue;
    draw' := HandleResult(q, img, rayJobs[i], rayCollisions[i], light, bounce, drawNow);
    HandleStep(data0, image, img.width, img.height, rayJobs, rayCollisions, light, i);
    QueueStep(queue0, current, rayJobs, rayCollisions, bounce, draw, drawNow, i);
  }

  /** The result-handling loop of an iteration: deposits into the image
      and queues secondary rays, one bounce direction per secondary ray. */
  method ProcessHits(q: PathTracingQueue, img: PathTracingImage, rayJobs: seq<Job>, rayCollisions: seq<Collision>,
                     light: Vec3 -> Vec4, bounce: nat -> Vec3, draw: nat)
    returns (draw': nat)
    requires img.Valid() && |rayCollisions| == |rayJobs| && OnImage(rayJobs, img.width, img.height)
    modifies q, img`data
    ensures img.Valid()
    ensures img.data == Deposited(old(img.data), img.width, img.height, rayJobs, rayCollisions, light, |rayJobs|)
    ensures q.jobQueue == old(q.jobQueue) + Spawned(rayJobs, rayCollisions, bounce, draw, |rayJobs|)
    ensures draw' == draw + |Spawned(rayJobs, rayCollisions, bounce, draw, |rayJobs|)|
  {
    draw' := draw;
    ghost var data0, queue0 := img.data, q.jobQueue;
    var i := 0;
    while i < |rayJobs|
      invariant 0 <= i <= |rayJobs| && img.Valid()
      invariant img.data == Deposited(data0, img.width, img.height, rayJobs, rayCollisions, light, i)
      invariant q.jobQueue == queue0 + Spawned(rayJobs, rayCollisions, bounce, draw, i)
      invariant draw' == draw + |Spawned(rayJobs, rayCollisions, bounce, draw, i)|
    {
      draw' := HandleNext(q, img, rayJobs, rayCollisions, light, bounce, draw, i, data0, queue0, draw');
      i := i + 1;
    }
  }

  // ---------------------------------------------------------------------
  // Properties of the result handling

  /** A hit below `MaxDepth` spawns at least one ray; every secondary ray
      keeps the parent's pixel, starts at the hit point one level deeper,
      and together they carry half the parent's weight. */
  lemma SecondariesShape(job: Job, col: Collision, bounce: nat -> Vec3, draw: nat)
    requires job.depth < MaxDepth
    ensures var kids := Secondaries(job, col, bounce, draw);
      && 1 <= |kids| <= 4
      && forall c :: 0 <= c < |kids| ==>
           && kids[c].pixelX == job.pixelX && kids[c].pixelY == job.pixelY
           && kids[c].rayOrigin == col.position && kids[c].depth == job.depth + 1
           && kids[c].weight * (|kids| as real) == job.weight * 0.5
  {
    SecondaryCountValues(job.depth);
    var kids := Secondaries(job, col, bounce, draw);
    var n := |kids| as real;
    forall c | 0 <= c < |kids|
      ensures kids[c] == Secondary(job, col, bounce, draw, |kids|, c)
      ensures kids[c].weight * n == job.weight * 0.5
    {
      SecondariesUpToAt(job, col, bounce, draw, |kids|, |kids|, c);
      calc {
        kids[c].weight * n;
        job.weight * (1.0 / n * 0.5) * n;
        job.weight * 0.5 * ((1.0 / n) * n);
      }
    }
  }

  /** The rays a well-formed job spawns are well formed. */
  lemma SpawnOfWellFormed(job: Job, col: Collision, bounce: nat -> Vec3, draw: nat, width: nat, height: nat)
    requires job.pixelX < width && job.pixelY < height && job.depth <= MaxDepth
    ensures JobsWellFormed(SpawnOf(job, col, bounce, draw), width, height)
  {
    if col.t < FltMax && job.depth != MaxDepth {
      SecondariesShape(job, col, bounce, draw);
    }
  }

  /** Handling results keeps the queue well formed: secondary rays stay on
      their parent's pixel and are never deeper than `MaxDepth`. */
  lemma {:induction false} SpawnedWellFormed(jobs: seq<Job>, cols: seq<Collision>, bounce: nat -> Vec3, draw: nat,
                                             k: nat, width: nat, height: nat)
    requires k <= |jobs| == |cols| && JobsWellFormed(jobs, width, height)
    ensures forall t :: 0 <= t < |jobs| ==> jobs[t].depth < 32
    ensures JobsWellFormed(Spawned(jobs, cols, bounce, draw, k), width, height)
  {
    if k > 0 {
      SpawnedWellFormed(jobs, cols, bounce, draw, k - 1, width, height);
      var before := Spawned(jobs, cols, bounce, draw, k - 1);
      SpawnOfWellFormed(jobs[k - 1], cols[k - 1], bounce, draw + |before|, width, height);
      WellFormedAppend(before, SpawnOf(jobs[k - 1], cols[k - 1], bounce, draw + |before|), width, height);
    }
  }

  /** A pixel that no depositing result names keeps its value. */
  lemma {:induction false} DepositedElsewhere(data: seq<Vec4>, width: nat, height: nat, jobs: seq<Job>,
                                              cols: seq<Collision>, light: Vec3 -> Vec4, k: nat, x: nat, y: nat)
    requires k <= |jobs| == |cols| && |data| == width * height && OnImage(jobs, width, height)
    requires x < width && y < height
    requires forall t :: 0 <= t < k && DepositOf(jobs[t], cols[t], light).Some? ==> (jobs[t].pixelX, jobs[t].pixelY) != (x, y)
    ensures PixelIndex(x, y, width) < |data|
    ensures Deposited(data, width, height, jobs, cols, light, k)[PixelIndex(x, y, width)] == data[PixelIndex(x, y, width)]
  {
    PixelIndexInjective(x, y, x, y, width, height);
    if k > 0 {
      DepositedElsewhere(data, width, height, jobs, cols, light, k - 1, x, y);
      var job := jobs[k - 1];
      if DepositOf(job, cols[k - 1], light).Some? {
        PixelIndexInjective(job.pixelX, job.pixelY, x, y, width, height);
      }
    }
  }

  /** How many jobs one drain takes from a queue of `queued` jobs: all of
      them when there is no cap or fewer jobs than the cap, otherwise one
      less than the cap (the counter reaches the cap before the last
      dequeue). */
  function BatchSize(queued: nat, maxJobsPerIter: nat): (n: nat)
    ensures n <= queued
    ensures maxJobsPerIter > 0 ==> n < maxJobsPerIter
    ensures n < queued ==> n == maxJobsPerIter - 1
  {
    if maxJobsPerIter == 0 || queued < maxJobsPerIter then queued else maxJobsPerIter - 1
  }

  /** The ray caster's answer for every job of a batch, in batch order. */
  function Casts(jobs: seq<Job>, cast: (Vec3, Vec3) -> Collision): (cols: seq<Collision>)
    ensures |cols| == |jobs|
    ensures forall t :: 0 <= t < |jobs| ==> cols[t] == cast(jobs[t].rayOrigin, jobs[t].rayDir)
  {
    if jobs == [] then []
    else Casts(jobs[..|jobs| - 1], cast) + [cast(jobs[|jobs| - 1].rayOrigin, jobs[|jobs| - 1].rayDir)]
  }

  /** The prefix a drain takes from a well-formed queue, and what it
      leaves, are well formed. */
  lemma BatchWellFormed(queue: seq<Job>, n: nat, width: nat, height: nat)
    requires n <= |queue| && JobsWellFormed(queue, width, height)
    ensures queue[..n] + queue[n..] == queue
    ensures JobsWellFormed(queue[..n], width, height) && JobsWellFormed(queue[n..], width, height)
    ensures OnImage(queue[..n], width, height)
  {
    assert queue[..n] + queue[n..] == queue;
    WellFormedAppend(queue[..n], queue[n..], width, height);
  }

  /** The queue, image and bounce counter after one iteration of the path
      tracer: the first `BatchSize` jobs are cast, their results deposited
      in batch order, and the rays they spawn follow the jobs left in the
      queue. */
  ghost function Iterated(queue: seq<Job>, data: seq<Vec4>, width: nat, height: nat, maxJobsPerIter: nat,
                          cast: (Vec3, Vec3) -> Collision, light: Vec3 -> Vec4, bounce: nat -> Vec3, draw: nat)
    : (seq<Job>, seq<Vec4>, nat)
    requires |data| == width * height && JobsWellFormed(queue, width, height)
  {
    var n := BatchSize(|queue|, maxJobsPerIter);
    BatchWellFormed(queue, n, width, height);
    var batch := queue[..n];
    var cols := Casts(batch, cast);
    var spawn := Spawned(batch, cols, bounce, draw, n);
    (queue[n..] + spawn, Deposited(data, width, height, batch, cols, light, n), draw + |spawn|)
  }

  /** An iteration keeps the queue well formed and the image its size,
      and never moves the bounce counter back. */
  lemma IteratedWellFormed(queue: seq<Job>, data: seq<Vec4>, width: nat, height: nat, maxJobsPerIter: nat,
                           cast: (Vec3, Vec3) -> Collision, light: Vec3 -> Vec4, bounce: nat -> Vec3, draw: nat)
    requires |data| == width * height && JobsWellFormed(queue, width, height)
    ensures var (queue', data', draw') := Iterated(queue, data, width, height, maxJobsPerIter, cast, light, bounce, draw);
      JobsWellFormed(queue', width, height) && |data'| == |data| && draw <= draw'
  {
    var n := BatchSize(|queue|, maxJobsPerIter);
    BatchWellFormed(queue, n, width, height);
    var batch := queue[..n];
    var cols := Casts(batch, cast);
    SpawnedWellFormed(batch, cols, bounce, draw, n, width, height);
    WellFormedAppend(queue[n..], Spawned(batch, cols, bounce, draw, n), width, height);
  }

  /** An iteration with an empty queue changes nothing. */
  lemma IteratedIdle(data: seq<Vec4>, width: nat, height: nat, maxJobsPerIter: nat,
                     cast: (Vec3, Vec3) -> Collision, light: Vec3 -> Vec4, bounce: nat -> Vec3, draw: nat)
    requires |data| == width * height
    ensures Iterated([], data, width, height, maxJobsPerIter, cast, light, bounce, draw) == ([], data, draw)
  {
    var r := Iterated([], data, width, height, maxJobsPerIter, cast, light, bounce, draw);
    assert r.0 == [];
    assert r.1 == data;
    assert r.2 == draw;
  }

  /** One iteration of the path tracer (ray-casting branch): drain a batch
      of at most `maxJobsPerIter - 1` jobs, cut it into work items of
      `jobsPerItem` rays, cast every ray, then deposit or spawn. */
  method PathTracingIteration(q: PathTracingQueue, img: PathTracingImage, maxJobsPerIter: nat, jobsPerItem: nat,
                              cast: (Vec3, Vec3) -> Collision, light: Vec3 -> Vec4, bounce: nat -> Vec3, draw: nat)
    returns (draw': nat)
    requires jobsPerItem > 0
    requires img.Valid() && JobsWellFormed(q.jobQueue, img.width, img.height)
    modifies q, img`data
    ensures img.Valid() && JobsWellFormed(q.jobQueue, img.width, img.height)
    ensures (q.jobQueue, img.data, draw') ==
      Iterated(old(q.jobQueue), old(img.data), img.width, img.height, maxJobsPerIter, cast, light, bounce, draw)
  {
    ghost var queue0 := q.jobQueue;
    ghost var n := BatchSize(|queue0|, maxJobsPerIter);
    draw' := draw;
    var rayJobs, rayDirs, rayOrigins, rayCollisions, jobsSoFar := Drain(q, maxJobsPerIter);
    assert |rayJobs| == n;
    assert rayJobs == queue0[..n] && q.jobQueue == queue0[n..];
    BatchWellFormed(queue0, n, img.width, img.height);
    IteratedWellFormed(queue0, img.data, img.width, img.height, maxJobsPerIter, cast, light, bounce, draw);
    if jobsSoFar > 0 {
      var chunks := MakeChunks(|rayJobs|, jobsPerItem);
      rayCollisions := CastBatch(rayOrigins, rayDirs, rayCollisions, chunks, jobsPerItem, cast);
      assert rayCollisions == Casts(rayJobs, cast);
      draw' := ProcessHits(q, img, rayJobs, rayCollisions, light, bounce, draw);
    } else {
      assert q.jobQueue == [] + Spawned(rayJobs, Casts(rayJobs, cast), bounce, draw, n);
    }
  }
}
