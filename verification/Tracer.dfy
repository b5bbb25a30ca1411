/** The programs of bpf/memleak.bpf.c over the four global maps, one method each.
    Every method is proved to compute the function that Accounting.dfy gives for it. */
module Tracer {
  import opened Words
  import opened BpfMaps
  import opened Accounting

  class Memleak {
    const cfg: Config
    var sizes: map<Pid, U64>
    var memptrs: map<U64, U64>
    var allocs: Allocs
    var combinedAllocs: map<U64, U64>
    ghost var lost: seq<Loss>

    ghost function View(): Ledger
      reads this
    {
      Ledger(Maps(sizes, memptrs, allocs, combinedAllocs), lost)
    }

    constructor (cfg: Config)
      ensures this.cfg == cfg && View() == EMPTY
    {
      this.cfg := cfg;
      sizes, memptrs, allocs, combinedAllocs, lost := map[], map[], map[], map[], [];
    }

    // bpf_map_lookup_or_try_init: the result is whether it returns a non-null pointer.
    method LookupOrTryInit(key: U64) returns (found: bool)
      modifies this`combinedAllocs
      ensures combinedAllocs == TryInit(old(combinedAllocs), key)
      ensures found <==> key in combinedAllocs
      ensures found <==> key in old(combinedAllocs) || |old(combinedAllocs)| < COMBINED_ALLOCS_MAX_ENTRIES
      ensures forall k :: k in old(combinedAllocs) ==>
                            k in combinedAllocs && combinedAllocs[k] == old(combinedAllocs)[k]
      ensures found && key !in old(combinedAllocs) ==> combinedAllocs[key] == 0
    {
      if key in combinedAllocs {
        return true;
      }
      var r := UpdateElem(combinedAllocs, COMBINED_ALLOCS_MAX_ENTRIES, key, 0, BPF_NOEXIST);
      combinedAllocs := r.content;
      if r.err != OK && r.err != EEXIST {
        return false;
      }
      return key in combinedAllocs;
    }

    method UpdateStatisticsAdd(key: U64, size: U64)
      modifies this`combinedAllocs
      ensures combinedAllocs == AddStat(old(combinedAllocs), key, size)
    {
      var found := LookupOrTryInit(key);
      if !found {
        return;
      }
      combinedAllocs := combinedAllocs[key := AtomicAdd(combinedAllocs[key], Pack(size, 1))];
    }

    method UpdateStatisticsDel(key: U64, size: U64)
      modifies this`combinedAllocs
      ensures combinedAllocs == SubStat(old(combinedAllocs), key, size)
    {
      if key !in combinedAllocs {
        return;
      }
      combinedAllocs := combinedAllocs[key := AtomicSub(combinedAllocs[key], Pack(size, 1))];
    }

    method GenAllocEnter(pid: Pid, size: U64, now: U64)
      modifies this
      ensures View() == Step(cfg, old(View()), Enter(pid, size, now))
    {
      if size < cfg.minSize || size > cfg.maxSize {
        return;
      }
      if cfg.sampleRate > 1 {
        if now % cfg.sampleRate != 0 {
          return;
        }
      }
      if cfg.targetPid != 0 && pid != cfg.targetPid {
        return;
      }
      sizes := UpdateElem(sizes, SIZES_MAX_ENTRIES, pid, size, BPF_ANY).content;
    }

    method GenAllocExit2(pid: Pid, address: U64, stackId: I32, now: U64)
      modifies this
      ensures View() == Step(cfg, old(View()), Exit(pid, address, stackId, now))
    {
      if pid !in sizes {
        return;  // missed alloc entry
      }
      var size := sizes[pid];
      sizes := DeleteElem(sizes, pid);
      if address != 0 {
        var info := AllocInfo(size, now, stackId);
        lost := lost + LossOf(allocs, address, info);
        allocs := UpdateElem(allocs, ALLOCS_MAX_ENTRIES, address, info, BPF_ANY).content;
        UpdateStatisticsAdd(StackKey(info.stackId), info.size);
      }
    }

    method GenFreeEnter(address: U64)
      modifies this
      ensures View() == Step(cfg, old(View()), Free(address))
    {
      if address !in allocs {
        return;
      }
      var info := allocs[address];
      allocs := DeleteElem(allocs, address);
      UpdateStatisticsDel(StackKey(info.stackId), info.size);
    }

    // malloc, mmap, aligned_alloc, valloc, memalign and pvalloc
    method AllocEnter(pid: Pid, size: U64, now: U64)
      modifies this
      ensures View() == Run(cfg, old(View()), Program(cfg, Handler.AllocEnter(pid, size, now)))
    {
      RunOne(cfg, View(), Enter(pid, size, now));
      GenAllocEnter(pid, size, now);
    }

    // the return probes of these, of calloc and of realloc
    method AllocExit(pid: Pid, result: U64, stackId: I32, now: U64)
      modifies this
      ensures View() == Run(cfg, old(View()), Program(cfg, Handler.AllocExit(pid, result, stackId, now)))
    {
      RunOne(cfg, View(), Exit(pid, result, stackId, now));
      GenAllocExit2(pid, result, stackId, now);
    }

    // free, munmap, kfree, kmem_cache_free, mm_page_free and percpu_free
    method FreeEnter(address: U64)
      modifies this
      ensures View() == Run(cfg, old(View()), Program(cfg, Handler.FreeEnter(address)))
    {
      RunOne(cfg, View(), Free(address));
      GenFreeEnter(address);
    }

    method CallocEnter(pid: Pid, nmemb: U64, size: U64, now: U64)
      modifies this
      ensures View() == Run(cfg, old(View()), Program(cfg, Handler.CallocEnter(pid, nmemb, size, now)))
    {
      GenAllocEnter(pid, Wrap64(nmemb * size), now);
    }

    method ReallocEnter(pid: Pid, ptr: U64, size: U64, now: U64)
      modifies this
      ensures View() == Run(cfg, old(View()), Program(cfg, Handler.ReallocEnter(pid, ptr, size, now)))
    {
      RunTwo(cfg, View(), Free(ptr), Enter(pid, size, now));
      GenFreeEnter(ptr);
      GenAllocEnter(pid, size, now);
    }

    method PosixMemalignEnter(pid: Pid, memptr: U64, size: U64, now: U64)
      modifies this
      ensures View() == Run(cfg, old(View()), Program(cfg, Handler.PosixMemalignEnter(pid, memptr, size, now)))
    {
      RunTwo(cfg, View(), SetMemptr(pid, memptr), Enter(pid, size, now));
      memptrs := UpdateElem(memptrs, MEMPTRS_MAX_ENTRIES, pid, memptr, BPF_ANY).content;
      GenAllocEnter(pid, size, now);
    }

    method PosixMemalignExit(pid: Pid, memory: UserMemory, stackId: I32, now: U64)
      modifies this
      ensures View() == Run(cfg, old(View()), Program(cfg, Handler.PosixMemalignExit(pid, memory, stackId, now)))
    {
      if pid !in memptrs {
        return;
      }
      var memptr := memptrs[pid];
      memptrs := DeleteElem(memptrs, pid);
      if memptr !in memory {
        return;
      }
      GenAllocExit2(pid, memory[memptr], stackId, now);
    }

    // kmalloc, kmalloc_node, kmem_cache_alloc and kmem_cache_alloc_node
    method SlabAlloc(pid: Pid, ptr: U64, size: U64, stackId: I32, now: U64, later: U64)
      modifies this
      ensures View() == Run(cfg, old(View()), Program(cfg, Handler.SlabAlloc(pid, ptr, size, stackId, now, later)))
    {
      ghost var enter, exit := Enter(pid, size, now), Exit(pid, ptr, stackId, later);
      ghost var ops := Program(cfg, Handler.SlabAlloc(pid, ptr, size, stackId, now, later));
      if cfg.waMissingFree {
        assert ops == [Free(ptr), enter, exit];
        RunThree(cfg, View(), Free(ptr), enter, exit);
        GenFreeEnter(ptr);
      } else {
        assert ops == [enter, exit];
        RunTwo(cfg, View(), enter, exit);
      }
      GenAllocEnter(pid, size, now);
      GenAllocExit2(pid, ptr, stackId, later);
    }

    method PageAlloc(pid: Pid, order: Order, pfn: U64, stackId: I32, now: U64, later: U64)
      modifies this
      ensures View() == Run(cfg, old(View()), Program(cfg, Handler.PageAlloc(pid, order, pfn, stackId, now, later)))
    {
      RunTwo(cfg, View(), Enter(pid, Wrap64(cfg.pageSize * PowerOfTwo(order)), now), Exit(pid, pfn, stackId, later));
      GenAllocEnter(pid, Wrap64(cfg.pageSize * PowerOfTwo(order)), now);
      GenAllocExit2(pid, pfn, stackId, later);
    }

    method PercpuAlloc(pid: Pid, ptr: U64, size: U64, stackId: I32, now: U64, later: U64)
      modifies this
      ensures View() == Run(cfg, old(View()), Program(cfg, Handler.PercpuAlloc(pid, ptr, size, stackId, now, later)))
    {
      RunTwo(cfg, View(), Enter(pid, size, now), Exit(pid, ptr, stackId, later));
      GenAllocEnter(pid, size, now);
      GenAllocExit2(pid, ptr, stackId, later);
    }
  }
}
