/**
 * The outside world the identification service touches: the cache file
 * on disk, the online-content throttle and the web endpoint. Each is
 * reduced to the answer it gives, so that every combination of
 * success and failure can be reasoned about.
 */
module HostEnvironment {
  import opened Wrappers

  class Host {
    /** The cache file: None when it does not exist, else its text. */
    var cacheFile: Option<string>
    /** Whether reading an existing cache file succeeds. */
    var cacheReadable: bool
    /** Whether writing the cache file succeeds. */
    var cacheWritable: bool
    /** The answer of the online-content throttle check. */
    var throttleOpen: bool
    /** The body the web endpoint returns; None for a transport or HTTP failure. */
    var remote: Option<string>
    /** Every URL downloaded so far, oldest first. */
    var requests: seq<string>

    constructor (cacheFile: Option<string>, cacheReadable: bool, cacheWritable: bool,
                 throttleOpen: bool, remote: Option<string>)
      ensures this.cacheFile == cacheFile && this.cacheReadable == cacheReadable
      ensures this.cacheWritable == cacheWritable && this.throttleOpen == throttleOpen
      ensures this.remote == remote && requests == []
    {
      this.cacheFile := cacheFile;
      this.cacheReadable := cacheReadable;
      this.cacheWritable := cacheWritable;
      this.throttleOpen := throttleOpen;
      this.remote := remote;
      requests := [];
    }

    function FileExists(): bool
      reads this
    {
      cacheFile.Some?
    }

    /** The text a read of the cache file yields: None when it is missing or the read throws. */
    ghost function ReadableText(): Option<string>
      reads this
    {
      if cacheReadable then cacheFile else None
    }

    /** File.ReadAllText on the cache file; a thrown exception is None. */
    method ReadAllText() returns (text: Option<string>)
      ensures text == ReadableText()
      ensures text.Some? <==> cacheFile.Some? && cacheReadable
    {
      text := if cacheReadable then cacheFile else None;
    }

    /** One download attempt; the request is recorded whether or not it succeeds. */
    method DownloadString(url: string) returns (body: Option<string>)
      modifies this`requests
      ensures requests == old(requests) + [url]
      ensures body == remote
    {
      requests := requests + [url];
      body := remote;
    }

    /** File.WriteAllText on the cache file; on failure the file keeps its old text. */
    method WriteAllText(text: string) returns (ok: bool)
      modifies this`cacheFile
      ensures ok == cacheWritable
      ensures cacheFile == if ok then Some(text) else old(cacheFile)
    {
      ok := cacheWritable;
      if ok {
        cacheFile := Some(text);
      }
    }
  }
}
