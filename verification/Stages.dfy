/** The label stage and the demultiplexer as code on their queues, tied to the pipeline's steps. */
module Stages {
  import opened Prelude
  import opened BoundedQueue
  import opened Groups
  import opened Pipeline
  import opened PipelineTrace
  import W = Windower
  import P = Publisher
  import A = Aggregation
  import I = Identity

  /**
   One turn of the label stage once the application label is known: exactly the Fetch, Enrich and
   Forward steps, with a user the index may name and that user's groups.
   */
  method LabelOne(inp: AsyncQueue<W.Row>, out: AsyncQueue<P.Flow>, appLabel: string, index: I.IdentityIndex,
                  groupIndex: GroupIndex) returns (user: string, groups: set<string>)
    requires inp.Valid() && out.Valid() && index.Valid() && inp as object != out
    requires inp.items != [] && !Full(|out.items|, out.maxsize)
    modifies inp, out, index
    ensures inp.Valid() && out.Valid() && index.Valid()
    ensures var row := old(inp.items)[0];
            && inp.items == old(inp.items)[1..]
            && MayName(old(index.log), row, user)
            && (user != A.UNKNOWN ==> groups == HeldBy(groupIndex.userGroups, user))
            && index.log == old(index.log) + [I.Probe(row.key.src, row.bucket)]
            && |out.items| == |old(out.items)| + 1 && out.items[..|old(out.items)|] == old(out.items)
            && IsLabelled(out.items[|old(out.items)|], row)
            && out.items[|old(out.items)|].appLabel == appLabel
            && out.items[|old(out.items)|].user == user && out.items[|old(out.items)|].groups == groups
            && out.items == old(out.items) + [LabelRow(row, appLabel, user, groups)]
  {
    var taken := inp.GetNowait();
    var row := taken.value;
    var hit := index.Resolve(row.key.src, row.bucket);
    if hit.None? {
      user, groups := A.UNKNOWN, {};
    } else {
      user := hit.value.user;
      groups := groupIndex.GroupsOf(user);
    }
    assert user == UserOf(hit);
    var flow := P.Flow(row.bucket, row.windowS, row.key.src, row.key.dst, row.key.port, row.key.proto,
                       row.acc.bytes, row.acc.packets, row.acc.flows, appLabel, row.lossy, row.dropped, user, groups);
    var full := out.PutNowait(flow);
    assert !full;
  }

  /** One turn of the demultiplexer: every consumer gets the flow, at the cost of its own oldest if full. */
  method DemuxOne(src: AsyncQueue<P.Flow>, dsts: seq<AsyncQueue<P.Flow>>)
    requires src.Valid() && src.items != [] && src !in dsts
    requires forall i :: 0 <= i < |dsts| ==> dsts[i].Valid()
    requires forall i, j :: 0 <= i < j < |dsts| ==> dsts[i] != dsts[j]
    modifies src, dsts
    ensures src.Valid() && src.items == old(src.items)[1..]
    ensures forall i :: 0 <= i < |dsts| ==> dsts[i].Valid() && Bounded(|old(dsts[i].items)|, dsts[i].maxsize)
    ensures forall i :: 0 <= i < |dsts| ==>
              dsts[i].items == Keep(old(dsts[i].items), [old(src.items)[0]], dsts[i].maxsize)
  {
    hide Keep;
    var item := src.GetNowait();
    for k := 0 to |dsts|
      invariant src.Valid() && src.items == old(src.items)[1..]
      invariant forall i :: 0 <= i < |dsts| ==> dsts[i].Valid() && Bounded(|old(dsts[i].items)|, dsts[i].maxsize)
      invariant forall i :: k <= i < |dsts| ==> dsts[i].items == old(dsts[i].items)
      invariant forall i :: 0 <= i < k ==>
                  dsts[i].items == Keep(old(dsts[i].items), [old(src.items)[0]], dsts[i].maxsize)
    {
      var _ := dsts[k].PutDropOldest(item.value);
    }
  }

  /** On the writer's and the publisher's queues that is the pipeline's step. */
  method DemuxBoth(inter: AsyncQueue<P.Flow>, writer: AsyncQueue<P.Flow>, sankey: AsyncQueue<P.Flow>,
                   ghost s: Pipe, ghost c: Setting)
    requires inter.Valid() && writer.Valid() && sankey.Valid() && inter != writer && inter != sankey && writer != sankey
    requires inter.items == s.inter && writer.items == s.writerQ && sankey.items == s.sankeyQ && s.inter != []
    requires writer.maxsize == c.cap && sankey.maxsize == c.cap && Sized(s, c.cap)
    modifies inter, writer, sankey
    ensures var t := Exec(s, Demux, c);
            inter.items == t.inter && writer.items == t.writerQ && sankey.items == t.sankeyQ
  {
    var dsts := [writer, sankey];
    assert dsts[0] == writer && dsts[1] == sankey;
    DemuxOne(inter, dsts);
    assert writer.items == Keep(s.writerQ, [s.inter[0]], c.cap) && sankey.items == Keep(s.sankeyQ, [s.inter[0]], c.cap);
  }
}
