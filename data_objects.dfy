/** The immutable records the downloader returns. */
module DataObjects {

  import opened Settled

  /** A completed transfer: the URL, the saved file's name and its path. */
  datatype DownloadedFile = DownloadedFile(url: string, filename: string, path: string)
  {
    /** `getUrl()`: the URL the file was downloaded from. */
    function GetUrl(): (u: string)
      ensures this == DownloadedFile(u, filename, path)
    {
      url
    }

    /** `getFilename()`: the saved file's name. */
    function GetFilename(): (name: string)
      ensures this == DownloadedFile(url, name, path)
    {
      filename
    }

    /** `getPath()`: where the file was saved. */
    function GetPath(): (p: string)
      ensures this == DownloadedFile(url, filename, p)
    {
      path
    }
  }

  /** One `key => value` pair of a PHP array; `array_filter` keeps the original keys. */
  datatype Entry<T> = Entry(key: nat, value: T)

  type SettledDownload = SettledPromiseResult<DownloadedFile>

  /** The report: the fulfilled and the rejected settled results, as the arrays were given. */
  datatype DownloadsResult = DownloadsResult(
    successfulDownloads: seq<Entry<SettledDownload>>,
    failedDownloads: seq<Entry<SettledDownload>>)
  {
    /** `getSuccessfulDownloads()`: the first constructor argument, keys included. */
    function GetSuccessfulDownloads(): (ok: seq<Entry<SettledDownload>>)
      ensures this == DownloadsResult(ok, failedDownloads)
    {
      successfulDownloads
    }

    /** `getFailedDownloads()`: the second constructor argument, keys included. */
    function GetFailedDownloads(): (failed: seq<Entry<SettledDownload>>)
      ensures this == DownloadsResult(successfulDownloads, failed)
    {
      failedDownloads
    }
  }
}
