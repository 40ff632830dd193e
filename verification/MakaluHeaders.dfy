/** Makalu's header cache: a small direct-mapped cache of header pointers that is never invalidated
    and still agrees with the index.

    Headers are named by positive numbers, blocks by the number of their first page; 0 is null.
*/
module MakaluHeaders {

  const HDR_CACHE_SIZE := 8

  /** block_addr and hce_hdr. */
  datatype CacheEntry = CacheEntry(block: int, header: int)

  class Headers {
    var index: int -> int            // HDR: the header of a block
    var hbBlock: int -> int          // hb_block: the block of a header
    var freeList: seq<int>           // MAK_hdr_free_list
    var made: int                    // headers carved from scratch space so far
    var cache: int -> CacheEntry     // a header cache, by slot

    /** hb_block names one live header for each block, and only headers once made are free or cached. */
    ghost predicate Valid()
      reads this
    {
      && made >= 0 && index(0) == 0
      && (forall p :: index(p) != 0 ==> 1 <= index(p) <= made && hbBlock(index(p)) == p)
      && (forall h :: hbBlock(h) != 0 ==> 1 <= h <= made && index(hbBlock(h)) == h)
      && (forall h :: h in freeList ==> 1 <= h <= made && hbBlock(h) == 0)
      && (forall i, j :: 0 <= i < j < |freeList| ==> freeList[i] != freeList[j])
      && (forall i :: cache(i).block != 0 ==> 1 <= cache(i).header <= made)
    }

    /** Every header ever made is in use or can be used again. */
    ghost predicate NoneLost()
      reads this
    {
      forall h :: 1 <= h <= made ==> hbBlock(h) != 0 || h in freeList
    }

    /** A lookup of p ends in the cache. */
    ghost predicate Hits(p: int)
      reads this
    {
      cache(p % HDR_CACHE_SIZE).block == p && hbBlock(cache(p % HDR_CACHE_SIZE).header) == p
    }

    constructor ()
      ensures Valid() && NoneLost() && forall p :: index(p) == 0 && (p >= 1 ==> !Hits(p))
    {
      index, hbBlock, freeList, made := p => 0, h => 0, [], 0;
      cache := i => CacheEntry(0, 0);
    }

    /** alloc_hdr: a removed header is used again if there is one. */
    method AllocHdr() returns (h: int)
      requires Valid()
      modifies this`freeList, this`made
      ensures Valid() && 1 <= h <= made && hbBlock(h) == 0 && h !in freeList
      ensures if old(freeList) != [] then [h] + freeList == old(freeList) && made == old(made)
              else freeList == [] && h == made == old(made) + 1
    {
      if freeList != [] {
        h := freeList[0];
        ghost var was := freeList;
        assert h in was;
        freeList := freeList[1..];
        assert forall x :: x in freeList ==> x in was;
      } else {
        made := made + 1;
        h := made;
      }
    }

    /** MAK_install_header. */
    method Install(p: int) returns (h: int)
      requires Valid() && p >= 1 && index(p) == 0
      modifies this
      ensures Valid() && h != 0 && index(p) == h && hbBlock(h) == p && cache == old(cache)
      ensures forall q :: q != p ==> index(q) == old(index)(q)
      ensures if old(freeList) != [] then h == old(freeList)[0] && made == old(made) else h == made == old(made) + 1
      ensures old(NoneLost()) ==> NoneLost()
    {
      h := AllocHdr();
      hbBlock := Upd(hbBlock, h, p);
      index := Upd(index, p, h);
    }

    /** MAK_remove_header. */
    method Remove(p: int)
      requires Valid() && index(p) != 0
      modifies this
      ensures Valid() && index(p) == 0 && hbBlock(old(index)(p)) == 0 && cache == old(cache)
      ensures forall q :: q != p ==> index(q) == old(index)(q)
      ensures freeList == [old(index)(p)] + old(freeList) && made == old(made)
      ensures old(NoneLost()) ==> NoneLost()
    {
      var h := index(p);
      hbBlock := Upd(hbBlock, h, 0);
      freeList := [h] + freeList;
      index := Upd(index, p, 0);
    }

    /** MAK_get_hdr_no_update. A hit need not be checked against the index: it is the same header. */
    method Get(p: int) returns (h: int)
      requires Valid() && p >= 1
      ensures h == index(p)
    {
      var e := cache(p % HDR_CACHE_SIZE);
      if e.block == p && hbBlock(e.header) == p {
        return e.header;
      }
      return index(p);
    }

    /** MAK_get_hdr_and_update_hc. */
    method GetAndCache(p: int) returns (h: int)
      requires Valid() && p >= 1 && index(p) != 0
      modifies this`cache
      ensures Valid() && h == index(p) && Hits(p)
      ensures forall i :: i != p % HDR_CACHE_SIZE ==> cache(i) == old(cache)(i)
    {
      var e := cache(p % HDR_CACHE_SIZE);
      if e.block == p && hbBlock(e.header) == p {
        return e.header;
      }
      h := index(p);
      cache := UpdEntry(cache, p % HDR_CACHE_SIZE, CacheEntry(hbBlock(h), h));
    }

    /** MAK_update_hc: the caller supplies the header it knows for p. */
    method Cache(p: int, h: int)
      requires Valid() && p >= 1 && 1 <= h <= made
      modifies this`cache
      ensures Valid() && (h == index(p) ==> Hits(p))
      ensures forall i :: i != p % HDR_CACHE_SIZE ==> cache(i) == old(cache)(i)
    {
      cache := UpdEntry(cache, p % HDR_CACHE_SIZE, CacheEntry(p, h));
    }
  }

  function Upd(f: int -> int, a: int, b: int): int -> int { x => if x == a then b else f(x) }
  function UpdEntry(f: int -> CacheEntry, a: int, b: CacheEntry): int -> CacheEntry { x => if x == a then b else f(x) }
}
